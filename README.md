# Fleet store and vehicle telemetry, modelled in Dafny

This project models the data core of a fleet-management application. It
verifies the model in Dafny 4.11. The application has two halves.

- **The browser-side store.** `src/services/localStore.ts` is a singleton.
  It keeps vehicles, telemetry readings, bookings and the signed-in user.
  A timer replaces the telemetry snapshot every few seconds: it makes one
  fresh reading per ACTIVE vehicle and mirrors each reading's position and
  fuel level back into that vehicle. `src/services/api.ts` wraps the store
  in the request-shaped API the screens call. Three screens hold small pure
  helpers over that data:
  - `TelemetryDashboard.tsx`: health classification, search and filter,
    map-marker colour.
  - `FleetOverview.tsx`: the maintenance window and its colour.
  - `FleetInventory.tsx`: search and filter, the vehicle-type list, the
    icon, and the edit and create forms.
- **The Spring backend.** `VehicleService.java` creates, updates, moves and
  deletes vehicle rows. `VehicleTelemetryService.java` holds the scheduled
  simulator. It appends one generated reading per vehicle to the
  `vehicle_telemetry` table and mirrors it into the vehicle row.
  `VehicleTelemetryRepository.java` holds the JPQL queries.
  `VehicleTelemetryController.java` holds the dashboard aggregate and the
  latest-reading endpoint.

The model follows the form of the source.

- Stateful objects are classes whose methods update fields:
  - `LocalStore.Store` is the TypeScript store.
  - `BackendModel.Database` is the vehicle table keyed by primary key, the
    telemetry table in insertion order, and the users.
- Loops are methods with invariants:
  - `LocalStore.MirrorEach` is the `forEach` that mirrors readings.
  - `TelemetryService.SimulateAll` is the `findAll` loop.
  - `TelemetryService.FindAllOrder` is the iteration order of `findAll`.
- Queries and helpers are functions. Lemmas relate each operation to its
  partner: the function that specifies it, its inverse, or the invariant
  it keeps.

Modelling conventions:

- Numbers (JavaScript numbers, Java doubles) are exact reals.
- Instants are integers of milliseconds.
- Each `Math.random()` or `Random.nextDouble()` draw is a real parameter in
  `[0, 1)`.
- JavaScript's `x || d` on a number treats an absent value and `0` alike.
  The model keeps that distinction, and `Api.ZeroIsMissing` shows its
  effect.

Behaviours of the source that the lemmas make explicit:

- `findByVehicleIdAndTimestampAfter` includes a reading at exactly the
  bound (`>=`), despite its name (`TelemetryRepository.ByVehicleIdSince`).
- `findLatestTelemetryForAllVehicles` keeps every reading tied for a
  vehicle's newest timestamp. The dashboard's `totalVehicles` then counts
  that vehicle twice (`TelemetryController.TiedReadingsCountTwice`).
- The telemetry dashboard's `healthyVehicles` subtracts overdue and
  upcoming vehicles of every status from the ACTIVE count. It can
  therefore be negative (`Api.HealthyCanBeNegative`).
- `VehicleStatus.valueOf` is case-sensitive, while the electric check
  ignores case (`VehicleService.StatusNameIsCaseSensitive`,
  `VehicleService.ElectricIgnoringCase`).
- `telemetryAPI.getTelemetryByVehicleId` returns a one-element list that may hold `undefined`
  (`Api.TelemetryByVehicleId`).
- `FleetOverview` and the store's maintenance counts agree on what is
  overdue. They use different horizons for "soon": 7 days in the overview,
  30 days in the store (`FleetOverview.AgreesWithStoreCounts`).

## Model

| member | source | states |
|---|---|---|
| LocalStore.Round | src/services/localStore.ts:275-276 | `Math.round` lands within one half of its argument, halves rounded up |
| LocalStore.VehicleById | src/services/localStore.ts:211-213 | nothing exactly when no vehicle has the id; otherwise the first vehicle carrying it |
| LocalStore.TelemetryFor | src/services/localStore.ts:255-257 | nothing exactly when no reading is for the vehicle; otherwise the first reading for it |
| LocalStore.WithStatus | src/services/localStore.ts:263-265 | exactly the vehicles in the given status, each as often as it occurs, in their original order |
| LocalStore.Without | src/services/localStore.ts:242-245 | no kept vehicle has the id; every other vehicle is kept as often as it occurs, in order; the length is unchanged exactly when the id was absent |
| LocalStore.WithStatusCount | src/services/localStore.ts:263-265 | the vehicles in a status are as many as the positions of the fleet holding one |
| LocalStore.WithIdentity | src/services/localStore.ts:215-222 | a created vehicle carries the new id, equal creation and update instants, and exactly the supplied fields |
| LocalStore.Merge | src/services/localStore.ts:233-237 | `updatedAt` is always the current instant; every other property (id, registration, type, model, status, driver, both coordinates, fuel, mileage, both maintenance dates, capacity, creation time) is the patch's value when the patch carries it and the record's otherwise |
| LocalStore.MergeSemantics | src/services/localStore.ts:228-240 | an empty patch only refreshes `updatedAt`; a status or mileage absent from the patch is kept, a present status replaces the old one |
| LocalStore.MergeIdempotent | src/services/localStore.ts:233-237 | applying the same patch twice gives the same record as applying it once |
| LocalStore.MergeFuelOnly | src/services/localStore.ts:233-237 | a patch of the fuel level alone changes exactly the fuel level and `updatedAt` |
| LocalStore.MergeLocationOnly | src/services/localStore.ts:233-237 | a patch of the coordinates alone changes exactly the coordinates and `updatedAt` |
| LocalStore.InitialVehicles | src/services/localStore.ts:83-135 | the seed fleet has three vehicles with distinct ids and fuel percentages, all created now |
| LocalStore.SeedReading | src/services/localStore.ts:139-153 | a seed reading belongs to its vehicle, has speed in `[0, 80)` and sensors in range, copies the fuel level and mileage, and falls back to the default coordinates |
| LocalStore.SeedTelemetry | src/services/localStore.ts:137-155 | one seed reading per vehicle, in fleet order, every one in range |
| LocalStore.SpeedBase | src/services/localStore.ts:168 | the previous speed, unless it is missing or zero, in which case 50 |
| LocalStore.FuelBase | src/services/localStore.ts:169 | the previous fuel level, unless it is missing or zero, in which case the vehicle's |
| LocalStore.LatBase | src/services/localStore.ts:172 | the previous latitude, else the vehicle's, else the default, skipping zeros |
| LocalStore.LngBase | src/services/localStore.ts:173 | the previous longitude, else the vehicle's, else the default, skipping zeros |
| LocalStore.OdometerBase | src/services/localStore.ts:174 | the previous odometer, unless it is missing or zero, in which case the vehicle's mileage |
| LocalStore.NextReading | src/services/localStore.ts:163-179 | a tick moves speed by at most 5 and never below 0; fuel never rises and drains by less than 0.1; the odometer never falls; position moves by at most 0.0005 |
| LocalStore.TickSnapshot | src/services/localStore.ts:160-180 | the new snapshot holds exactly one reading per ACTIVE vehicle, each derived from that vehicle's previous reading |
| LocalStore.TickReadingIsActive | src/services/localStore.ts:161-162 | every reading after a tick belongs to an ACTIVE vehicle |
| LocalStore.TickCoversActive | src/services/localStore.ts:160-180 | every ACTIVE vehicle has a reading after a tick |
| LocalStore.TickDropsInactive | src/services/localStore.ts:160-182 | a vehicle that is not ACTIVE has no reading after a tick |
| LocalStore.MirrorEach | src/services/localStore.ts:184-192 | the loop produces the mirrored fleet, vehicle by vehicle |
| LocalStore.MirrorChangesOnlyLocationAndFuel | src/services/localStore.ts:184-192 | mirroring copies only position and fuel level from the vehicle's reading and stamps `updatedAt`; a vehicle without a reading is untouched |
| LocalStore.TickMirrorsOwnReading | src/services/localStore.ts:158-196 | after a tick an ACTIVE vehicle shows its own fresh reading, and any other vehicle is unchanged |
| LocalStore.GetVehicleStats | src/services/localStore.ts:259-278 | each status count is the number of positions holding a vehicle in that status, and they sum to the fleet size; the average fuel level is absent exactly for an empty fleet, otherwise `Math.round` of total fuel over the fleet size, and a percentage when every fuel level is one; the mileage is `Math.round` of the total mileage |
| LocalStore.AverageWithin | src/services/localStore.ts:267 | the mean fuel level lies between any bounds of the fuel levels |
| LocalStore.UpcomingWindow | src/services/localStore.ts:284-289 | upcoming means due after now and at most 30 days ahead |
| LocalStore.GetMaintenanceStats | src/services/localStore.ts:280-302 | the in-maintenance count is the number of vehicles in MAINTENANCE; overdue counts the vehicles whose next maintenance date is before now; upcoming counts those whose date lies in `(now, now + 30 days]`; the two never together exceed the fleet |
| LocalStore.MaintenanceBoundaries | src/services/localStore.ts:284-295 | due exactly now counts nowhere, no date counts nowhere, 10 days ahead is upcoming, 40 days ahead is neither, yesterday is overdue |
| LocalStore.Store.constructor | src/services/localStore.ts:77-159 | stored collections are kept; missing ones become the seed data; the timer is armed and nothing has been published |
| LocalStore.Store.Tick | src/services/localStore.ts:159-196 | runs only while the timer is armed; the snapshot becomes the tick snapshot, the fleet becomes the mirrored fleet, and exactly that snapshot is published |
| LocalStore.Store.StopTelemetrySimulation | src/services/localStore.ts:199-204 | the timer is disarmed and nothing else changes |
| LocalStore.Store.CreateVehicle | src/services/localStore.ts:215-226 | the new vehicle, identified by the creation instant, is appended; nothing else changes |
| Text.NatToString | src/services/localStore.ts:219 | `toString` of a non-negative number: at least one digit, no leading zero, and the digits denote the number |
| Text.NatToStringInjective | src/services/localStore.ts:219 | different instants give different ids |
| Text.IntToString | src/services/api.ts:59 | `toString` of an integer: a minus sign exactly for negative numbers, then the digits of the magnitude |
| Text.IntToStringInjective | src/services/api.ts:59 | different driver ids give different strings |
| LocalStore.Store.UpdateVehicle | src/services/localStore.ts:228-240 | null exactly when no vehicle has the id, leaving the fleet as it was; otherwise the first such vehicle is replaced by its merge with the patch |
| LocalStore.Store.DeleteVehicle | src/services/localStore.ts:242-248 | true exactly when a vehicle had the id; afterwards none has it |
| LocalStore.Store.SetCurrentUser | src/services/localStore.ts:314-320 | the current user becomes the given one, or none |
| LocalStore.DeleteTwice | src/services/localStore.ts:242-248 | deleting an existing id succeeds once; deleting it again reports false |
| Api.NewVehicleFrom | src/services/api.ts:16-31 | status defaults to ACTIVE, missing or zero coordinates to New York, missing or zero fuel to 100, missing mileage to 0; every other field is carried over |
| Api.DefaultsIdempotent | src/services/api.ts:16-31 | applying the defaults to already-defaulted input changes nothing |
| Api.ZeroIsMissing | src/services/api.ts:24-26 | a fuel level or latitude of 0 is replaced by the default like a missing one |
| Api.CreateVehicle | src/services/api.ts:16-33 | the store gains exactly the defaulted vehicle |
| Api.LocationPatchChangesOnlyLocation | src/services/api.ts:67-74 | a location update changes only the coordinates and `updatedAt` |
| Api.UpdateVehicleLocation | src/services/api.ts:67-74 | nothing exactly when the vehicle is absent; otherwise only its coordinates change |
| Api.DeleteVehicle | src/services/api.ts:41-45 | success exactly when the vehicle existed; afterwards it is gone |
| Api.VehiclesByDriver | src/services/api.ts:57-60 | exactly the vehicles assigned to the driver's id, each as often as it occurs, in order |
| Api.AvailableVehicles | src/services/api.ts:62-65 | exactly the ACTIVE vehicles, each as often as it occurs, in order; the whole fleet when all are ACTIVE |
| Api.TelemetryDashboard | src/services/api.ts:278-290 | critical alerts are the store's overdue count and warnings its upcoming count; critical, warning and healthy add up to the ACTIVE count; healthy never exceeds it; the temperature is the constant 88; the fuel average is the store's |
| Api.HealthyCanBeNegative | src/services/api.ts:285 | one overdue vehicle in MAINTENANCE gives one critical alert and healthy count -1 |
| Api.TelemetryByVehicleId | src/services/api.ts:258-261 | always a one-element list, whose entry is undefined exactly when the vehicle has no reading, and otherwise the first reading of that vehicle in the snapshot |
| Api.CustomerId | src/services/api.ts:123 | the signed-in user's id, or `"1"` when no one is signed in or the id is empty |
| Api.NewBooking | src/services/api.ts:119-140 | a new booking is PENDING, identified by the creation instant, owned by the current customer, with no pickup, delivery or rating yet; vehicle, locations, coordinates, scheduled and estimated times, cargo, price and notes are carried over from the input |
| Api.CreateBooking | src/services/api.ts:119-145 | the store gains exactly the new booking |
| TelemetryDashboard.HealthStatus | src/components/TelemetryDashboard.tsx:103-120 | critical exactly for a critical reading; warning exactly for a warning reading that is not critical; healthy otherwise |
| TelemetryDashboard.HealthMonotone | src/components/TelemetryDashboard.tsx:103-120 | less fuel never makes a reading healthier; oil pressure above the threshold does not matter |
| TelemetryDashboard.SimulatedHealthByFuel | src/components/TelemetryDashboard.tsx:103-120 | for readings whose sensors are in the simulated ranges, health depends on fuel alone: below 20 critical, below 40 warning |
| TelemetryDashboard.FilteredTelemetry | src/components/TelemetryDashboard.tsx:176-181 | exactly the readings that match the search (ASCII case folding) and the status filter, each as often as it occurs, in order |
| TelemetryDashboard.UnfilteredShowsAll | src/components/TelemetryDashboard.tsx:176-181 | an empty search with filter ALL shows every reading |
| TelemetryDashboard.CriticalFilter | src/components/TelemetryDashboard.tsx:176-181 | the CRITICAL filter shows exactly the critical readings |
| TelemetryDashboard.MarkerColour | src/components/TelemetryDashboard.tsx:148-149 | teal `#14b8a6` exactly when moving faster than 5; red `#ef4444` exactly when not moving faster than 5 and critical; grey `#6b7280` otherwise |
| TelemetryDashboard.RedMarkerMeansStoppedAndCritical | src/components/TelemetryDashboard.tsx:103-149 | a reading's marker is red exactly when it is stopped and critical |
| FleetOverview.MaintenanceStatusWindows | src/components/FleetOverview.tsx:87-97 | unknown without a date; overdue strictly before now; due soon up to 7 days ahead; good beyond |
| FleetOverview.MaintenanceStatus | src/components/FleetOverview.tsx:87-97 | unknown exactly without a date; overdue exactly when the date is before now |
| FleetOverview.AgreesWithStoreCounts | src/components/FleetOverview.tsx:87-97 | overdue here exactly when the store counts the vehicle overdue; upcoming in the store is due soon or good here |
| FleetOverview.MaintenanceColour | src/components/FleetOverview.tsx:99-110 | each window name has its own colour, and any other name is grey |
| FleetOverview.GreyOnlyWhenUnknown | src/components/FleetOverview.tsx:87-110 | a vehicle is shown grey exactly when it has no next-maintenance date |
| FleetInventory.FilteredVehicles | src/components/FleetInventory.tsx:182-190 | exactly the vehicles matching search (ASCII case folding), status and type, each as often as it occurs, in order |
| FleetInventory.EmptyTermMatches | src/components/FleetInventory.tsx:183-185 | the empty search term matches every vehicle |
| FleetInventory.UnfilteredShowsAll | src/components/FleetInventory.tsx:182-190 | an empty search with both filters at ALL shows the whole fleet |
| FleetInventory.TypeFilterSelectsType | src/components/FleetInventory.tsx:182-190 | the type filter shows exactly the vehicles of that type |
| FleetInventory.VehicleTypes | src/components/FleetInventory.tsx:192 | every type in the fleet appears once, nothing else appears, in order of first occurrence |
| FleetInventory.IconFor | src/components/FleetInventory.tsx:177-180 | the truck icon exactly when the type, lower-cased over ASCII, contains `truck` at some position; a type shorter than `truck` always gets the car icon |
| FleetInventory.SeedIcons | src/components/FleetInventory.tsx:177-180 | `TRUCK` gets the truck icon and `VAN` the car icon |
| FleetInventory.EditForm | src/components/FleetInventory.tsx:119-136 | the edit form shows the vehicle's values, falling back to default coordinates and an empty driver |
| FleetInventory.DriverOf | src/components/FleetInventory.tsx:98 | an empty driver field means no driver |
| FleetInventory.EditSaveRoundTrip | src/components/FleetInventory.tsx:82-136 | opening a vehicle for edit and saving unchanged changes only `updatedAt` when its coordinates and driver are set |
| FleetInventory.SubmitPatch | src/components/FleetInventory.tsx:84-104 | an edit sends every form field, the coordinates as present numbers and an empty driver as none, and never the id or the timestamps |
| FleetInventory.SubmitInput | src/components/FleetInventory.tsx:84-104 | a creation sends every form field, with status, fuel, mileage and coordinates present and an empty driver as none |
| FleetInventory.CreateFromForm | src/components/FleetInventory.tsx:84-99 | creating from the form keeps its status, mileage, driver and non-zero fuel level |
| BackendModel.ParseStatus | backend/src/main/java/com/neurofleetx/service/VehicleService.java:73-75 | a name parses exactly when it is a status's own name |
| BackendModel.ParseStatusName | backend/src/main/java/com/neurofleetx/service/VehicleService.java:73-75 | parsing a status's name gives that status back |
| VehicleService.AvailableVehicles | backend/src/main/java/com/neurofleetx/service/VehicleService.java:32-36 | exactly the rows with status AVAILABLE, unchanged |
| VehicleService.RequestedStatus | backend/src/main/java/com/neurofleetx/service/VehicleService.java:73-75 | no name gives the default; a name succeeds exactly when it is a status's name, and fails otherwise |
| VehicleService.CreateVehicle | backend/src/main/java/com/neurofleetx/service/VehicleService.java:54-89 | a taken vehicle id or an unknown status leaves the table unchanged; otherwise exactly one new row is inserted under a fresh key, and the table invariant holds |
| VehicleService.UpdateVehicle | backend/src/main/java/com/neurofleetx/service/VehicleService.java:91-129 | a missing row or an unknown status leaves the table unchanged; otherwise only that row is replaced |
| VehicleService.UpdateVehicleLocation | backend/src/main/java/com/neurofleetx/service/VehicleService.java:131-143 | not found exactly when no row has the vehicle id; otherwise only that row changes, in its coordinates, location text and `lastUpdated` |
| VehicleService.DeleteVehicle | backend/src/main/java/com/neurofleetx/service/VehicleService.java:164-169 | not found exactly when the key is absent; otherwise exactly that row is removed |
| VehicleService.NewRowKeepsValid | backend/src/main/java/com/neurofleetx/service/VehicleService.java:54-89 | inserting a row with a new vehicle id under the next key keeps keys and vehicle ids unique |
| VehicleService.SameIdentityKeepsValid | backend/src/main/java/com/neurofleetx/service/VehicleService.java:91-143 | replacing a row by one with the same key and vehicle id keeps the table invariant |
| VehicleService.CreateOutcomeCases | backend/src/main/java/com/neurofleetx/service/VehicleService.java:54-89 | the outcome is a duplicate error, a status error or a new row, and the new row is AVAILABLE by default, electric as the fuel type says, and stamped now |
| VehicleService.StatusNameIsCaseSensitive | backend/src/main/java/com/neurofleetx/service/VehicleService.java:73-75 | `available` in lower case is rejected as an unknown status |
| VehicleService.ElectricIgnoringCase | backend/src/main/java/com/neurofleetx/service/VehicleService.java:76 | the electric flag is set exactly when the fuel type equals `electric` ignoring ASCII case |
| VehicleService.IsElectricIffFuelTypeElectric | backend/src/main/java/com/neurofleetx/service/VehicleService.java:76 | `Electric` and `ELECTRIC` are electric and `hybrid` is not |
| VehicleService.CreateAssignsOnlyDrivers | backend/src/main/java/com/neurofleetx/service/VehicleService.java:78-85 | a new row gets a driver exactly when the requested user exists and is a driver, with that user's full name |
| VehicleService.UpdateDriverCases | backend/src/main/java/com/neurofleetx/service/VehicleService.java:114-124 | no driver id clears the driver; a driver's id replaces it; a non-driver's id leaves it as it was |
| VehicleService.UpdateOutcomeCases | backend/src/main/java/com/neurofleetx/service/VehicleService.java:91-129 | an update keeps the row's identity, creation instant and the columns the request does not carry, keeps the status when none is given, and stamps `lastUpdated` |
| VehicleService.MoveChangesOnlyPosition | backend/src/main/java/com/neurofleetx/service/VehicleService.java:131-143 | a move sets latitude, longitude, the location text (cleared when none is given) and `lastUpdated`, and nothing else |
| VehicleService.CreatedVehicleAvailability | backend/src/main/java/com/neurofleetx/service/VehicleService.java:32-89 | a created vehicle is listed as available exactly when it was created without a status or with status AVAILABLE |
| VehicleService.DeleteFromAvailable | backend/src/main/java/com/neurofleetx/service/VehicleService.java:32-169 | after a delete the removed row is no longer listed as available, and the other rows' availability is unchanged |
| TelemetryRepository.SortByTimestamp | backend/src/main/java/com/neurofleetx/repository/VehicleTelemetryRepository.java:14 | `ORDER BY timestamp` gives an ordered permutation of its rows |
| TelemetryRepository.ByVehicleIdNewestFirst | backend/src/main/java/com/neurofleetx/repository/VehicleTelemetryRepository.java:14-15 | exactly the vehicle's readings, each as often as in the table, newest first |
| TelemetryRepository.LatestByVehicleId | backend/src/main/java/com/neurofleetx/repository/VehicleTelemetryRepository.java:17-18 | nothing exactly when the vehicle has no reading; otherwise one of its readings that none of its others is newer than |
| TelemetryRepository.LatestIgnoresOtherVehicles | backend/src/main/java/com/neurofleetx/repository/VehicleTelemetryRepository.java:17-18 | appending readings of other vehicles does not change a vehicle's latest reading |
| TelemetryRepository.LatestForAllVehicles | backend/src/main/java/com/neurofleetx/repository/VehicleTelemetryRepository.java:20-22 | exactly the readings that carry their vehicle's newest timestamp, each as often as it occurs, in table order |
| TelemetryRepository.EveryVehicleHasLatest | backend/src/main/java/com/neurofleetx/repository/VehicleTelemetryRepository.java:20-22 | every vehicle with a reading is in the latest-for-all list, with its latest reading |
| TelemetryRepository.RecentTelemetry | backend/src/main/java/com/neurofleetx/repository/VehicleTelemetryRepository.java:24-25 | exactly the readings at or after the bound, newest first |
| TelemetryRepository.ByVehicleIdSince | backend/src/main/java/com/neurofleetx/repository/VehicleTelemetryRepository.java:30-31 | exactly the vehicle's readings at or after the bound, the bound included, oldest first |
| TelemetryRepository.CountByMaintenanceStatus | backend/src/main/java/com/neurofleetx/repository/VehicleTelemetryRepository.java:27-28 | the number of positions holding a reading with the status; at most the table size, and zero exactly when no reading has it |
| TelemetryRepository.StatusesPartitionTable | backend/src/main/java/com/neurofleetx/repository/VehicleTelemetryRepository.java:27-28 | the three statuses and "no status" partition the table |
| TelemetryRepository.CountsCoverTable | backend/src/main/java/com/neurofleetx/repository/VehicleTelemetryRepository.java:27-28 | the three counts add up to the table size exactly when every reading has a status |
| TelemetryRepository.MatchingCount | backend/src/main/java/com/neurofleetx/repository/VehicleTelemetryRepository.java:27-28 | the readings with a status are as many as the positions holding one |
| TelemetryService.SimulatedSpeed | backend/src/main/java/com/neurofleetx/service/VehicleTelemetryService.java:101-107 | en route in `[20, 80)`, loading in `[0, 5)`, any other status 0 |
| TelemetryService.DetermineMaintenanceStatus | backend/src/main/java/com/neurofleetx/service/VehicleTelemetryService.java:154-168 | critical exactly under the critical thresholds; due exactly under the due thresholds when not critical; healthy otherwise |
| TelemetryService.CriticalAlert | backend/src/main/java/com/neurofleetx/service/VehicleTelemetryService.java:170-179 | low fuel first, then low battery, then a general alert, each carrying the level that triggered it |
| TelemetryService.AlertFor | backend/src/main/java/com/neurofleetx/service/VehicleTelemetryService.java:144-149 | no alert exactly for a healthy reading; the critical alert when critical; the due-soon message when due |
| TelemetryService.FormatOneDecimal | backend/src/main/java/com/neurofleetx/service/VehicleTelemetryService.java:172-175 | `%.1f` gives a leading minus exactly for negative numbers, then digits, a point and one digit that together denote the magnitude times ten rounded half up |
| TelemetryService.CriticalTextsAreMarked | backend/src/main/java/com/neurofleetx/service/VehicleTelemetryService.java:144-179 | an alert text starts with `Critical: ` exactly when the reading is critical |
| TelemetryService.AlertText | backend/src/main/java/com/neurofleetx/service/VehicleTelemetryService.java:146-177 | the text starts with `Critical: ` exactly for the three critical alerts; low fuel reads `Critical: Low fuel level - ` and low battery `Critical: Low battery level - `, each followed by the level to one decimal and `%`; the generic critical text is exactly `Critical: Immediate maintenance required` and the non-critical one exactly `Scheduled maintenance due soon` |
| TelemetryService.GenerateSimulatedTelemetry | backend/src/main/java/com/neurofleetx/service/VehicleTelemetryService.java:85-152 | the reading belongs to the vehicle and is stamped now |
| TelemetryService.SimulatedReadingBounds | backend/src/main/java/com/neurofleetx/service/VehicleTelemetryService.java:85-152 | position moves by at most 0.005; speed follows the status; fuel drops by less than 2 and stops at 10; an electric battery drops by less than 3 and stops at 15, any other reads 100; mileage grows by exactly the speed times five seconds (`speed * 5 / 3600`), so by less than 1/9 and not at all exactly when stopped; status and alert are those of the new values |
| TelemetryService.NoBatteryAlertWithoutBattery | backend/src/main/java/com/neurofleetx/service/VehicleTelemetryService.java:113-118 | a vehicle that is not electric reports battery 100 and never gets a low-battery alert |
| TelemetryService.FirstReadingOfParkedVehicle | backend/src/main/java/com/neurofleetx/service/VehicleTelemetryService.java:87-127 | the first reading of a parked combustion vehicle has speed 0, mileage 0, battery 100 and fuel above 98, and is due exactly when the one-in-ten draw fires, healthy otherwise |
| TelemetryService.TruncateToInt | backend/src/main/java/com/neurofleetx/service/VehicleTelemetryService.java:78 | `intValue` drops the fraction toward zero |
| TelemetryService.MirrorReading | backend/src/main/java/com/neurofleetx/service/VehicleTelemetryService.java:74-81 | mirroring keeps the row's identity |
| TelemetryService.MirrorChangesOnlySensors | backend/src/main/java/com/neurofleetx/service/VehicleTelemetryService.java:74-81 | mirroring changes only position, speed, battery, fuel and `lastUpdated`; a battery level in `[15, 100]` lands on a whole number in that range |
| TelemetryService.SimulatorReadsOwnReadings | backend/src/main/java/com/neurofleetx/service/VehicleTelemetryService.java:87 | each vehicle's reading keeps its vehicle id and depends only on that vehicle's previous readings |
| TelemetryService.SimulatedReadings | backend/src/main/java/com/neurofleetx/service/VehicleTelemetryService.java:70-71 | one reading per vehicle row, each for that row's vehicle |
| TelemetryService.SimulatedVehicles | backend/src/main/java/com/neurofleetx/service/VehicleTelemetryService.java:74-81 | the same rows, with the same identities, each mirroring its reading |
| TelemetryService.Batch | backend/src/main/java/com/neurofleetx/service/VehicleTelemetryService.java:70-72 | the readings saved, one per visited row, in visiting order |
| TelemetryService.BatchOfOthers | backend/src/main/java/com/neurofleetx/service/VehicleTelemetryService.java:70-72 | readings saved for other rows never belong to a given vehicle |
| TelemetryService.Visit | backend/src/main/java/com/neurofleetx/service/VehicleTelemetryService.java:70-81 | one visit appends one reading and changes only the visited row |
| TelemetryService.Run | backend/src/main/java/com/neurofleetx/service/VehicleTelemetryService.java:68-82 | a run keeps the set of rows and appends one reading per visit |
| TelemetryService.RunLeavesUnvisited | backend/src/main/java/com/neurofleetx/service/VehicleTelemetryService.java:68-82 | a row not yet visited is unchanged |
| TelemetryService.NextReading | backend/src/main/java/com/neurofleetx/service/VehicleTelemetryService.java:70-72 | the reading saved at each step is the one computed from the table as it stood before the run |
| TelemetryService.RunAppendsReadings | backend/src/main/java/com/neurofleetx/service/VehicleTelemetryService.java:68-82 | a run appends exactly the batch of simulated readings, in visiting order |
| TelemetryService.RunMirrorsReadings | backend/src/main/java/com/neurofleetx/service/VehicleTelemetryService.java:68-82 | every visited row mirrors its own reading |
| TelemetryService.AllVisited | backend/src/main/java/com/neurofleetx/service/VehicleTelemetryService.java:68-82 | once every row is visited, the fleet equals the simulated fleet |
| TelemetryService.FindAllOrder | backend/src/main/java/com/neurofleetx/service/VehicleTelemetryService.java:68 | `findAll` yields every row exactly once |
| TelemetryService.SimulateAll | backend/src/main/java/com/neurofleetx/service/VehicleTelemetryService.java:68-82 | the loop produces the run's table and fleet: old table plus batch, and the mirrored fleet |
| TelemetryService.SimulateTelemetryData | backend/src/main/java/com/neurofleetx/service/VehicleTelemetryService.java:66-83 | one scheduled pass appends one reading per row and mirrors it into its row; users and keys are untouched and the table invariant holds |
| TelemetryService.CountsByName | backend/src/main/java/com/neurofleetx/service/VehicleTelemetryService.java:48-54 | the map has exactly the three status names, each with its count |
| TelemetryService.MaintenanceStatusCounts | backend/src/main/java/com/neurofleetx/service/VehicleTelemetryService.java:48-54 | the three names map to the repository's count of that status; together at most the table size; CRITICAL is 0 exactly when no reading is critical |
| TelemetryController.RoundTenth | backend/src/main/java/com/neurofleetx/controller/VehicleTelemetryController.java:75-76 | rounds to a whole number of tenths within 0.05 |
| TelemetryController.RoundTenthMonotone | backend/src/main/java/com/neurofleetx/controller/VehicleTelemetryController.java:75-76 | rounding never reverses an order |
| TelemetryController.RoundTenthFixesTenths | backend/src/main/java/com/neurofleetx/controller/VehicleTelemetryController.java:75-76 | a whole number of tenths rounds to itself |
| TelemetryController.RoundTenthIdempotent | backend/src/main/java/com/neurofleetx/controller/VehicleTelemetryController.java:75-76 | rounding twice equals rounding once |
| TelemetryController.Average | backend/src/main/java/com/neurofleetx/controller/VehicleTelemetryController.java:58-66 | the mean times the count is the sum; 0 for no readings |
| TelemetryController.AverageWithin | backend/src/main/java/com/neurofleetx/controller/VehicleTelemetryController.java:58-66 | the mean lies between any bounds of the values |
| TelemetryController.DashboardStatsOf | backend/src/main/java/com/neurofleetx/controller/VehicleTelemetryController.java:53-81 | total is the size of the latest-for-all list; active is the number of its readings faster than 5; the averages are the means over that list rounded to tenths, and 0 for an empty list; the maintenance counts are the service's |
| TelemetryController.EmptyDashboardIffEmptyTable | backend/src/main/java/com/neurofleetx/controller/VehicleTelemetryController.java:55-73 | the dashboard shows no vehicles exactly when the table is empty |
| TelemetryController.ActiveVehiclesCount | backend/src/main/java/com/neurofleetx/controller/VehicleTelemetryController.java:68-70 | no active vehicle exactly when no latest reading is faster than 5; all active exactly when all are |
| TelemetryController.ActiveCount | backend/src/main/java/com/neurofleetx/controller/VehicleTelemetryController.java:68-70 | the readings faster than 5 are as many as the positions holding one |
| TelemetryController.DashboardAveragesInRange | backend/src/main/java/com/neurofleetx/controller/VehicleTelemetryController.java:58-76 | with fuel levels as percentages and speeds in `[0, 80]`, the rounded averages stay in those ranges |
| TelemetryController.TiedReadingsCountTwice | backend/src/main/java/com/neurofleetx/controller/VehicleTelemetryController.java:55 | two readings of one vehicle at the same instant make `totalVehicles` 2 |
| TelemetryController.RecentTelemetryResponse | backend/src/main/java/com/neurofleetx/controller/VehicleTelemetryController.java:39-45 | exactly the readings of the last `hours` hours, one hour when the parameter is absent, the bound included, newest first |
| TelemetryController.LatestTelemetryResponse | backend/src/main/java/com/neurofleetx/controller/VehicleTelemetryController.java:32-37 | not found exactly when the vehicle has no reading; otherwise its latest reading, which is also in the latest-for-all list |

## Left out

- Browser storage and JSON: the collections are fields of the store. Reading stored data that is malformed makes `JSON.parse` throw; this is not modelled, and a missing key is modelled as absent.
- Timers and event plumbing (`setInterval`, `@Scheduled(fixedRate = 5000)`, `window.dispatchEvent`): the timer is a handle field. Each tick and each scheduled pass is one method call. Published snapshots are a ghost log.
- The websocket broadcasts in `saveTelemetry` (`SimpMessagingTemplate`) and `src/services/websocket.ts`: network I/O. Saving a reading is modelled as appending it to the table.
- Randomness and clocks: every `Math.random()`, `Random.nextDouble()`, `Date.now()` and `LocalDateTime.now()` is a parameter.
- TelemetryService.SimulateAll and TelemetryService.SimulateTelemetryData: one `now` stamps every reading and every `lastUpdated` of a scheduled pass, while the service reads the clock again for each reading and each vehicle; nothing in the model depends on those instants differing.
- IEEE 754 arithmetic: doubles are exact reals. The `NaN` average of an empty fleet is an absent value. `toFixed`, `parseFloat` and form text are treated as exact conversions.
- LocalStore.Store.CreateVehicle: the id is the creation instant, as in the source. Two creations in the same millisecond would share an id; the model does not rule this out.
- TelemetryService.TruncateToInt: Java's `intValue` saturates at the `int` range; the model does not, because the battery level is always within `[15, 100]`.
- TelemetryService.FindAllOrder: the order in which `findAll` returns rows is unspecified, so any order is allowed. The results depend on that order only through the order of the appended batch.
- TelemetryRepository.SortByTimestamp: readings with equal timestamps come back in insertion order here; SQL leaves their order unspecified, so the contracts state only ordering and permutation.
- VehicleService.UpdateVehicleLocation: latitude and longitude are reals. A Java `null` would be stored and then fail the entity's validation; that path is not modelled.
- Text.ToLower and Text.EqualsIgnoreCase map only ASCII letters. JavaScript's `toLowerCase` also maps other letters (the Kelvin sign U+212A becomes `k`), and Java's `equalsIgnoreCase` also matches U+0130 and U+0131 with `i`.
- FilteredTelemetry: the search is case-insensitive over ASCII only (see `Text.ToLower`).
- FilteredVehicles: the search is case-insensitive over ASCII only (see `Text.ToLower`).
- FleetInventory.IconFor: the type is lower-cased over ASCII only, so a type spelled with the Kelvin sign gets the truck icon in the source but not in the model.
- ElectricIgnoringCase: case is ignored over ASCII only, so `ELECTRİC` (U+0130) or `electrıc` (U+0131), which Java accepts, is not electric in the model.
- TelemetryRepository.LatestForAllVehicles: the query has no `ORDER BY`, so SQL leaves the order of its rows unspecified; the model returns them in table order, and its subsequence clause promises that fixed order, which the database does not.
- FormatOneDecimal: the decimal separator is always `.`; Java's `String.format` uses the default locale's separator.
- Bean validation (`@NotBlank`, `@NotNull`, `@Min`) on `VehicleRequest` and the entities is not enforced by the model.
- The generated row ids and the vehicle row's `lastUpdated` and `createdAt` field initializers (`Vehicle.java` lines 59 and 62): a new row takes the next key, and both timestamps are the `now` parameter.
- `User.java` and `UserRepository` are not part of this model. A user is a record with its type and names.
- VehicleController.java and the DTO mapping (`VehicleResponse`) pass data through and are not modelled.
- The remaining read-only pass-throughs (`getAllVehicles`, `getVehicleById`, `getVehicleByVehicleId`, `getVehiclesByDriver`, `getVehicleCountByStatus`, `getTotalVehicleCount`, `getAvailableDrivers`, `getTelemetryByVehicleId`, `getRecentTelemetry(since)`) call one repository query each and are not modelled separately.
- The fixed-value stubs of `src/services/api.ts` (`authAPI`, `customerAPI.getDashboardStats`, `rateBooking`, `updateBookingProgress`, `driverAPI`, `dashboardAPI.getInsights`) and its `delay` calls: they return constants.
- `telemetryAPI.getLatestTelemetry` and `telemetryAPI.getRecentTelemetry` return the store's snapshot unchanged; the latter ignores its `hours` argument. Neither is modelled separately.
- `dashboardAPI.getStats` and `vehicleAPI.getVehicleStats` rename the fields of `LocalStore.GetVehicleStats` and are not modelled separately.
- Rendering, styling and React state in the three screens: only their pure helpers are modelled.
- Concurrency between the scheduled pass and requests: each operation is modelled as atomic.
