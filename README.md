# Feed importers of gladetimes/tapaastimes, modelled in Dafny

gladetimes/tapaastimes is a Django site for bus, train and simulator vehicle tracking. This project models the decision-making inside its feed importers. Databases, HTTP and geometry are replaced by sequences, maps and function parameters.

- **Static GTFS import** (`import_gtfs_worldwide.py`). Modules `GtfsSettings`, `GtfsStops`, `GtfsRoutes`, `GtfsTrips`, `GtfsStopTimes` and `GtfsRouteLinks`.
  - The settings defaults.
  - The stop table, its create/update partition and its admin areas.
  - The agency table and operator resolution.
  - Service matching, the route upsert and the retirement at the end of a run.
  - The trip loop with its batches of 1000.
  - The stop-time encoding and the choice of rows to write or skip.
  - The control flow of the route links.
- **GTFS-Realtime matching** (`import_gtfsr_translink_qld.py`, `import_gtfsr_worldwide.py`). Modules `GtfsTime`, `LiveSchedule`, `TranslinkQld` and `GtfsrWorldwide`.
  - The start instant: the "noon minus 12h" rule of the Time field type in the GTFS Schedule Reference.
  - The service and trip cascade, with its suffix fallback and calendar filter.
  - The journey built from a match, and the vehicle adopting its operator once.
  - The occupancy table of the GTFS Realtime OccupancyStatus enum.
  - The worldwide importer's settings and request headers.
- **Vehicle code normalisers** (`import_vehicles.py`). Modules `VehicleCodes` and `VehicleImport`.
  - `normalize_fleet_number`, `normalize_registration` and `normalize_slug`, with their regular expressions as character-class predicates.
  - The code-selection rule.
  - The import loop with its created/updated counters.
- **Simulator radar adapters** (`import_thirdrails.py`, `import_rentor.py`, `test_thirdrails.py`). Modules `RadarItem`, `ThirdRails`, `ThirdRailsScript` and `Rentor`.
  - Coordinate and speed parsing.
  - Identity fallbacks, operator naming and truncation limits.
  - The "Points unchanged" dedup with its counters.
- **New-vehicle notifier** (`listen.py`). Module `Listen`.
  - The `slug|operator` payload and its split.
  - The Markdown link and the NCTR mention.

Shared modules:

- `Wrappers`: Option.
- `Text`: Python string operations on ASCII text (`lower`, `upper`, `strip`, `split`, `join`, character classes).
- `Tables`: an ordered dict; filtering an id range lowest first.

Tables are sequences in primary-key order, so `.first()` is the lowest-numbered match.

Where the source mutates state step by step, the model does too:

- Classes: `GtfsRoutes.GtfsRun`, `ThirdRails.ThirdRailsImporter`, `VehicleImport.VehicleTable`, `LiveSchedule.LiveVehicle` and `GtfsrWorldwide.FeedSettings`.
- Loops proved against recursive specification functions: `CollectStops`, `LoadAgencies`, `GroupByTrip`, `LoadTrips`, `WriteStopTimes`, `CutTrip` and `DoRouteLinks`.

Python behaviour that matters is written out:

- `Cell` distinguishes a missing column, an empty (NaN) cell and an integer.
- `PyValue` never equates a string with a number.
- A `KeyError` or `ValueError` that ends an import becomes `None`.

## Model

| member | source | states |
|---|---|---|
| GtfsSettings.Configure | bustimes/management/commands/import_gtfs_worldwide.py:76-90 | every missing setting takes its default; an absent or empty stop prefix becomes the lower-cased source name and "-", so the stop prefix is never empty |
| GtfsSettings.AutoStopPrefix | bustimes/management/commands/import_gtfs_worldwide.py:82-84 | source "Translink" without a stop prefix gets "translink-" |
| GtfsSettings.Prefixed | bustimes/management/commands/import_gtfs_worldwide.py:164-166 | a non-empty prefix is put in front of the code; an empty one leaves it unchanged |
| GtfsSettings.PrefixedInjective | bustimes/management/commands/import_gtfs_worldwide.py:164-166 | two codes with the same prefixed form are equal, so prefixing never merges stops |
| GtfsSettings.FirstWord | bustimes/management/commands/import_gtfs_worldwide.py:115-118 | `split()[0]`: None exactly when the text is blank; otherwise the leading run of non-space characters after the leading blanks |
| GtfsSettings.AgencyCode | bustimes/management/commands/import_gtfs_worldwide.py:106-124 | the agency id, else the configured operator code, else the first word of the agency name (or of the source name) cut to 10 characters; then the agency prefix; None where `split()[0]` raises |
| GtfsSettings.AgencyCodeExample | bustimes/management/commands/import_gtfs_worldwide.py:112-118 | the agency "Translink Queensland" with no id gets the code "Translink" |
| GtfsStops.CommonNameAndIndicator | bustimes/management/commands/import_gtfs_worldwide.py:177-179 | a name holding ", stop" and exactly one ", " is split at that ", " into common name and indicator; the common name is then cut to 48 characters; otherwise the indicator is empty |
| GtfsStops.SplitsStopName | bustimes/management/commands/import_gtfs_worldwide.py:177-179 | "Main Street, stop 3"-style names split into the text before the ", " and the text after it |
| GtfsStops.NewStop | bustimes/management/commands/import_gtfs_worldwide.py:162-180 | a row's stop has the prefixed code, the split name and the row's coordinates |
| GtfsStops.CollectStops | bustimes/management/commands/import_gtfs_worldwide.py:158-180 | the `stops` dict filled row by row equals the dict of the rows in order |
| GtfsStops.StopsWellFormed | bustimes/management/commands/import_gtfs_worldwide.py:158-180 | the dict is well formed, and each stop sits under its own code |
| GtfsStops.KeysAreCodes | bustimes/management/commands/import_gtfs_worldwide.py:158-180 | the keys of the stop dict are exactly the prefixed codes of the rows |
| GtfsStops.RowCodeIsKey | bustimes/management/commands/import_gtfs_worldwide.py:158-180 | every row's prefixed code is a key |
| GtfsStops.KeyIsRowCode | bustimes/management/commands/import_gtfs_worldwide.py:158-180 | every key is some row's prefixed code |
| GtfsStops.LastRowWins | bustimes/management/commands/import_gtfs_worldwide.py:158-180 | a code holds the stop of the last row with that code |
| GtfsStops.Select | bustimes/management/commands/import_gtfs_worldwide.py:188-200 | the list comprehension keeps exactly the stops of the keys that satisfy the test |
| GtfsStops.Partition | bustimes/management/commands/import_gtfs_worldwide.py:184-200 | a created stop's code is new; an updated stop exists and belongs to this source or to none; no stop is both created and updated |
| GtfsStops.PartitionComplete | bustimes/management/commands/import_gtfs_worldwide.py:184-200 | a stop is created exactly when its code is new, and updated exactly when it exists, is owned by this source or by none, and moved or was renamed |
| GtfsStops.AdminArea | bustimes/management/commands/import_gtfs_worldwide.py:207-230 | "skip" gives no area; a numeric 3-character code prefix gives that area exactly when it exists; otherwise a configured region gives its first area, and "" or "auto" gives none |
| GtfsStops.AssignAdminAreas | bustimes/management/commands/import_gtfs_worldwide.py:207-230 | each new stop gets its AdminArea; the memo of looked-up prefixes holds only numeric prefixes, with their true answers |
| GtfsStops.PrefixBlocksNumericArea | bustimes/management/commands/import_gtfs_worldwide.py:208-221 | a stop prefix with a non-digit among its first three characters rules out the numeric branch, so "auto" assigns no area |
| GtfsRoutes.OperatorsOf | bustimes/management/commands/import_gtfs_worldwide.py:333-339 | `self.operators` is empty when agencies are not handled; otherwise its keys are exactly the agencies' keys (the id, or the name when the id is missing) |
| GtfsRoutes.LastAgencyWins | bustimes/management/commands/import_gtfs_worldwide.py:333-339 | each key holds the operator of the last agency filed under it |
| GtfsRoutes.LoadAgencies | bustimes/management/commands/import_gtfs_worldwide.py:333-339 | the agency loop builds OperatorsOf |
| GtfsRoutes.OperatorsWellFormed | bustimes/management/commands/import_gtfs_worldwide.py:333-339 | the operators dict has unique keys, each in its map |
| GtfsRoutes.LineNames | bustimes/management/commands/import_gtfs_worldwide.py:244-250 | non-string names become ""; an empty line name takes a space-free description, and then a description shorter than 5 characters is cleared |
| GtfsRoutes.RouteOperator | bustimes/management/commands/import_gtfs_worldwide.py:252-270 | a truthy agency id looks up the prefixed id; otherwise a single agency's operator, else the default operator, else none |
| GtfsRoutes.PrefixedAgencyMissesOperator | bustimes/management/commands/import_gtfs_worldwide.py:258-270 | with an agency prefix, a route naming its agency finds no operator, because the dict is keyed by the raw id |
| GtfsRoutes.SingleAgency | bustimes/management/commands/import_gtfs_worldwide.py:262-266 | a route without an agency id in a one-agency feed gets that agency's operator |
| GtfsRoutes.MatchService | bustimes/management/commands/import_gtfs_worldwide.py:271-284 | the lowest-numbered service of the operator meeting the single OR condition; None exactly when no service meets it |
| GtfsRoutes.SavedService | bustimes/management/commands/import_gtfs_worldwide.py:286-302 | the saved service is current, with the route id as its code and the route's names; its operators are replaced on the first sighting in the run, added to later, and left alone without an operator |
| GtfsRoutes.FindRoute | bustimes/management/commands/import_gtfs_worldwide.py:304-316 | the route of this source and code, None exactly when there is none |
| GtfsRoutes.WithoutTripsOf | bustimes/management/commands/import_gtfs_worldwide.py:312-316 | exactly the trips of other routes remain, unchanged |
| GtfsRoutes.AfterRoute | bustimes/management/commands/import_gtfs_worldwide.py:242-316 | after `handle_route` the route id names a route with a service; that service is current, of this source, carries the route id as code and the line names; its operators become the route's operator on its first sighting in the run, gain it on later ones, and stay as they were without one; the service joins the seen set; the route and its operator are recorded |
| GtfsRoutes.RouteUpserted | bustimes/management/commands/import_gtfs_worldwide.py:297-316 | the route is the only one of its source and code, carries the route's names and has no trips; its service is current with the route id as code; route uniqueness and trip validity are kept |
| GtfsRoutes.ReimportSameRoute | bustimes/management/commands/import_gtfs_worldwide.py:304-316 | a route handled again updates the same row and is left with no trips, so it never holds trips of two imports |
| GtfsRoutes.AfterRouteFrame | bustimes/management/commands/import_gtfs_worldwide.py:242-316 | only the chosen service, the route and that route's trips change; at most one service and one route are added |
| GtfsRoutes.ServiceChoice | bustimes/management/commands/import_gtfs_worldwide.py:271-302 | the service used is the lowest matching one; a new service is created exactly when none matches |
| GtfsRoutes.Retired | bustimes/management/commands/import_gtfs_worldwide.py:553-565 | exactly the source's current services without a route of this run lose `current`, and exactly the source's routes outside the run lose their service; everything else, and the trips, stay as they were |
| GtfsRoutes.RetireKeepsRun | bustimes/management/commands/import_gtfs_worldwide.py:553-565 | afterwards every current service of the source has a route of this run; the source's other routes have no service; other sources, the run's routes, and the source's services that are kept or not current are untouched; a changed service only lost `current` |
| GtfsRoutes.GtfsRun.constructor | bustimes/management/commands/import_gtfs_worldwide.py:327-330 | a run starts with no routes, operators or seen services |
| GtfsRoutes.GtfsRun.HandleRoute | bustimes/management/commands/import_gtfs_worldwide.py:242-316 | the step-by-step `handle_route` leaves the run in the state AfterRoute gives |
| GtfsRoutes.GtfsRun.Retire | bustimes/management/commands/import_gtfs_worldwide.py:553-565 | the clean-up leaves the database Retired gives and changes nothing else |
| GtfsTrips.RowsOf | bustimes/management/commands/import_gtfs_worldwide.py:369-375 | the rows of one trip in file order; empty exactly when no row has the trip id |
| GtfsTrips.RowsOfStep | bustimes/management/commands/import_gtfs_worldwide.py:372-375 | one more row extends its own trip's rows only |
| GtfsTrips.GroupByTrip | bustimes/management/commands/import_gtfs_worldwide.py:369-375 | `stop_times_by_trip` has exactly the trip ids of the rows, each with its non-empty rows in file order |
| GtfsTrips.FirstLowest | bustimes/management/commands/import_gtfs_worldwide.py:413-417 | the row a stable sort puts first: minimal stop_sequence, earliest of ties |
| GtfsTrips.LastHighest | bustimes/management/commands/import_gtfs_worldwide.py:413-425 | the row a stable sort puts last: maximal stop_sequence, latest of ties |
| GtfsTrips.Block | bustimes/management/commands/import_gtfs_worldwide.py:395-399 | the stripped block id; "", "N/A" and "n/a" give no block |
| GtfsTrips.BuildTrip | bustimes/management/commands/import_gtfs_worldwide.py:401-425 | start is the departure of the first lowest row and end the arrival of the last highest; destination is that stop's prefixed code when it is a known stop; route, calendar, operator and ticket code come from the lookups; inbound exactly when direction_id is 1 |
| GtfsTrips.LoadCounts | bustimes/management/commands/import_gtfs_worldwide.py:387-443 | every trip line is counted once, with or without start, and the inserted trips are those with start |
| GtfsTrips.CreatedAreCodes | bustimes/management/commands/import_gtfs_worldwide.py:427-443 | `created_trip_ids` is the set of ticket codes of the inserted trips |
| GtfsTrips.FailureSticks | bustimes/management/commands/import_gtfs_worldwide.py:387-443 | a KeyError on some trip line ends the whole loop |
| GtfsTrips.PkMapKeys | bustimes/management/commands/import_gtfs_worldwide.py:427-443 | `trip_id_to_pk` has exactly the inserted codes |
| GtfsTrips.PkMapPoints | bustimes/management/commands/import_gtfs_worldwide.py:427-443 | each code maps to the id of the last inserted trip with that code |
| GtfsTrips.CreatedHavePks | bustimes/management/commands/import_gtfs_worldwide.py:427-443 | every created trip id has an id in `trip_id_to_pk` |
| GtfsTrips.TripWithStopTimesInserted | bustimes/management/commands/import_gtfs_worldwide.py:413-438 | a trip with stop times is inserted as built |
| GtfsTrips.InsertedFromLines | bustimes/management/commands/import_gtfs_worldwide.py:413-438 | every inserted trip comes from a trip line with stop times |
| GtfsTrips.LoadStep | bustimes/management/commands/import_gtfs_worldwide.py:387-438 | the load of one more line is `AddLine` of the load so far: a resolvable line adds its trip when it has stop times, and otherwise only counts it as without start |
| GtfsTrips.LoadFails | bustimes/management/commands/import_gtfs_worldwide.py:391-410 | a line whose route or calendar lookup fails ends the loop |
| GtfsTrips.Flush | bustimes/management/commands/import_gtfs_worldwide.py:434-443 | flushing a batch extends `trip_id_to_pk` to the trips flushed so far, in order |
| GtfsTrips.Admit | bustimes/management/commands/import_gtfs_worldwide.py:427-438 | a kept trip joins the batch; a batch reaching 1000 is flushed; the order of trips is kept |
| GtfsTrips.LoadTrips | bustimes/management/commands/import_gtfs_worldwide.py:387-443 | the trip loop with batches of 1000 fails exactly when LoadOf does, and otherwise gives LoadOf's counters and trips with `trip_id_to_pk` over all of them |
| GtfsStopTimes.Allowed | bustimes/management/commands/import_gtfs_worldwide.py:465-485 | pick-up / set-down is false exactly for the code 1 |
| GtfsStopTimes.TimingStatus | bustimes/management/commands/import_gtfs_worldwide.py:463 | "PTP" exactly when the timepoint column is missing or 1; "OTH" otherwise, including for an empty cell |
| GtfsStopTimes.Encode | bustimes/management/commands/import_gtfs_worldwide.py:487-511 | a row encodes exactly when both times parse; the arrival is always kept, because a string never equals the integer departure; prefixed stop, sequence, trip id, timing status and flags as given |
| GtfsStopTimes.CopyStep | bustimes/management/commands/import_gtfs_worldwide.py:497-514 | the copy of one more row is `AddRow` of the copy so far: the row fails the copy, is written with its trip's id when the trip was created, or counts as skipped |
| GtfsStopTimes.CopyCounts | bustimes/management/commands/import_gtfs_worldwide.py:497-514 | processed + skipped equals the number of rows, and processed equals the number of rows written |
| GtfsStopTimes.CopySucceeds | bustimes/management/commands/import_gtfs_worldwide.py:487-514 | the copy succeeds exactly when every row's times parse, skipped rows included |
| GtfsStopTimes.CreatedRowWritten | bustimes/management/commands/import_gtfs_worldwide.py:497-512 | a row of a created trip is written, with its trip's id |
| GtfsStopTimes.WrittenFromCreated | bustimes/management/commands/import_gtfs_worldwide.py:497-512 | every written row is the encoding of a row of a created trip |
| GtfsStopTimes.FailureSticks | bustimes/management/commands/import_gtfs_worldwide.py:487-514 | a failure on some row fails the whole copy |
| GtfsStopTimes.EncodeRow | bustimes/management/commands/import_gtfs_worldwide.py:463-495 | the loop body computes Encode |
| GtfsStopTimes.CopyRowStep | bustimes/management/commands/import_gtfs_worldwide.py:454-516 | one turn of the loop computes the copy of one more row |
| GtfsStopTimes.WriteStopTimes | bustimes/management/commands/import_gtfs_worldwide.py:454-516 | the stop-time loop computes CopyOf |
| GtfsRouteLinks.FirstPerShape | bustimes/management/commands/import_gtfs_worldwide.py:577 | `drop_duplicates("shape_id")` keeps trips of the input with pairwise distinct shape ids (a missing id counts as one) |
| GtfsRouteLinks.FirstPerShapeComplete | bustimes/management/commands/import_gtfs_worldwide.py:577 | every shape id of the input keeps a trip |
| GtfsRouteLinks.KeptAt | bustimes/management/commands/import_gtfs_worldwide.py:577 | the kept trips are the input's trips at KeptPositions, one for one |
| GtfsRouteLinks.KeptInOrder | bustimes/management/commands/import_gtfs_worldwide.py:577 | the kept positions strictly increase, so the input order is kept |
| GtfsRouteLinks.KeptAreFirst | bustimes/management/commands/import_gtfs_worldwide.py:577 | each kept trip is the first of the input with its shape id: no earlier trip has that id |
| GtfsRouteLinks.NewLink | bustimes/management/commands/import_gtfs_worldwide.py:620-631 | a stored key gives the stored link's id (an update); a new key gives no id (a create) |
| GtfsRouteLinks.PairStep | bustimes/management/commands/import_gtfs_worldwide.py:593-633 | a key already cut resets the cursor; otherwise the start is re-projected when the cursor is unset or 0; a link is added exactly when the piece is a LineString; the cursor always moves to the end distance; a missing stop is a KeyError |
| GtfsRouteLinks.CutTrip | bustimes/management/commands/import_gtfs_worldwide.py:593-633 | the inner loop over a trip's consecutive stops computes PairsFrom |
| GtfsRouteLinks.DoRouteLinks | bustimes/management/commands/import_gtfs_worldwide.py:572-637 | `do_route_links` computes RouteLinksOf |
| GtfsRouteLinks.PairsKeep | bustimes/management/commands/import_gtfs_worldwide.py:593-633 | a link once cut keeps its geometry, and every link's id comes from the stored link with its key |
| GtfsRouteLinks.TripsKeep | bustimes/management/commands/import_gtfs_worldwide.py:581-633 | over all trips the first trip to cut a key decides its link, and ids come from the stored links |
| GtfsRouteLinks.UpdateOrCreate | bustimes/management/commands/import_gtfs_worldwide.py:635-637 | the updated keys are exactly the stored ones among the links and the created keys the others; the two are disjoint and together are all the links |
| GtfsTime.ParseDate | vehicles/management/commands/import_gtfsr_translink_qld.py:92-95 | `strptime("%Y%m%d")` accepts only eight digits forming a real calendar date, and the date it gives, written back as "YYYYMMDD", is the input |
| GtfsTime.ParseFormatDate | vehicles/management/commands/import_gtfsr_translink_qld.py:92-95 | every real calendar date, written "YYYYMMDD", parses back to itself |
| GtfsTime.ParseDuration | vehicles/management/commands/import_gtfsr_worldwide.py:105 | `parse_duration`: "" is zero; a result means the text is digits and ":" with at most one final newline, and is under 1000000000 days (beyond `timedelta.max` the `timedelta` raises OverflowError) |
| GtfsTime.ParseNewline | vehicles/management/commands/import_gtfsr_translink_qld.py:96 | one final newline does not change what `parse_duration` gives |
| GtfsTime.PadDigitsValue | bustimes/management/commands/import_gtfs_worldwide.py:487-490 | a zero-padded number reads back as itself |
| GtfsTime.ParseFormatTime | bustimes/management/commands/import_gtfs_worldwide.py:487-490 | every "HH:MM:SS" GTFS time, hours past 24 included, parses back to its number of seconds |
| GtfsTime.ParseFields | vehicles/management/commands/import_gtfsr_translink_qld.py:96 | three non-empty runs of digits joined by ":" parse to hours·3600 + minutes·60 + seconds when that is within `timedelta`'s range, and to None (OverflowError) beyond it |
| GtfsTime.StartInstant | vehicles/management/commands/import_gtfsr_translink_qld.py:92-99 | noon of the service date plus the start time minus 12 hours is midnight plus the start time, tagged with the zone without conversion; None exactly when noon plus the start time reaches 10000-01-01, where the addition raises OverflowError |
| GtfsTime.ScheduledStart | vehicles/management/commands/import_gtfsr_translink_qld.py:90-100 | a start exists exactly when the date and the time parse and noon of the date plus the time stays within `datetime`'s range, and then it is midnight of the date plus the time |
| LiveSchedule.ServicesByRouteCode | vehicles/management/commands/import_gtfsr_translink_qld.py:118-122 | exactly the current services with a route of the source with this code, in id order |
| LiveSchedule.ServicesByTripCode | vehicles/management/commands/import_gtfsr_translink_qld.py:123-128 | exactly the current services with a route of the source holding a trip with this ticket code |
| LiveSchedule.TripsByCode | vehicles/management/commands/import_gtfsr_translink_qld.py:133-137 | trips with this ticket code, of the chosen service, or of the source when there is none |
| LiveSchedule.TripsBySchedule | vehicles/management/commands/import_gtfsr_translink_qld.py:153-161 | trips of the source, filtered by start and direction when a start is given, and by the service when there is one |
| LiveSchedule.RouteSuffix | vehicles/management/commands/import_gtfsr_translink_qld.py:142-144 | the text after the first "_", or the whole id without one |
| LiveSchedule.SuffixRoutes | vehicles/management/commands/import_gtfsr_translink_qld.py:145-151 | the routes of the source whose code ends with "_" and the suffix and that have a service |
| LiveSchedule.SuffixService | vehicles/management/commands/import_gtfsr_translink_qld.py:145-151 | `.get()` gives a service exactly when one route matches |
| LiveSchedule.Pick | vehicles/management/commands/import_gtfsr_translink_qld.py:163-170 | a single trip is taken directly; with a date, several trips go through the calendar filter and the first survivor (possibly none) is taken |
| LiveSchedule.FirstService | vehicles/management/commands/import_gtfsr_translink_qld.py:117-131 | the first service by route code, else the first by trip code; always a current service |
| LiveSchedule.UsesFallback | vehicles/management/commands/import_gtfsr_translink_qld.py:141 | the fallback runs when neither a service nor a trip was found by code and the trip id holds "_" |
| LiveSchedule.Cascade | vehicles/management/commands/import_gtfsr_translink_qld.py:117-170 | without the fallback, the service is FirstService and a trip has the ticket code; with it, SuffixService and a trip of the source passing the start filter; a trip always lies in the chosen service |
| LiveSchedule.MatchTrip | vehicles/management/commands/import_gtfsr_translink_qld.py:117-170 | the step-by-step cascade computes Cascade |
| LiveSchedule.BuildJourney | vehicles/management/commands/import_gtfsr_translink_qld.py:172-186 | the trip's service stands in when none was chosen; destination is the trip's headsign; route name is the service's line name |
| LiveSchedule.AdoptOperator | vehicles/management/commands/import_gtfsr_translink_qld.py:181-184 | the vehicle takes the trip's operator only when it has none |
| LiveSchedule.JourneyFollowsTrip | vehicles/management/commands/import_gtfsr_translink_qld.py:172-177 | when both are set, the trip's route service is the journey's service |
| LiveSchedule.AdoptOnce | vehicles/management/commands/import_gtfsr_translink_qld.py:181-184 | once adopted, the operator is never replaced |
| LiveSchedule.LiveVehicle.constructor | vehicles/management/commands/import_gtfsr_translink_qld.py:81-87 | a vehicle with its operator and latest journey |
| LiveSchedule.ApplyDecision | vehicles/management/commands/import_gtfsr_translink_qld.py:172-190 | a fresh journey adopts its trip's operator when the vehicle has none and records the item; reuse and failure write nothing |
| LiveSchedule.OccupancyName | vehicles/management/commands/import_gtfsr_translink_qld.py:16-26 | the table names the statuses 0 to 8 and no others |
| LiveSchedule.Heading | vehicles/management/commands/import_gtfsr_translink_qld.py:194 | `bearing or None`: a bearing of 0 becomes None |
| LiveSchedule.VehicleIdentity | vehicles/management/commands/import_gtfsr_translink_qld.py:44-49 | the text after the last "_", or the whole id without one; the same code `get_vehicle` uses (lines 72-79) |
| LiveSchedule.VehicleIdentityExample | vehicles/management/commands/import_gtfsr_translink_qld.py:45-48 | "A7393ED51E387246BB3D6249943091E8_2264" gives "2264" |
| TranslinkQld.JourneyIdentity | vehicles/management/commands/import_gtfsr_translink_qld.py:52-57 | route id, trip id and start date |
| TranslinkQld.HasSchedule | vehicles/management/commands/import_gtfsr_translink_qld.py:108 | schedule data means both a start date and a start time are non-empty |
| TranslinkQld.StartPlan | vehicles/management/commands/import_gtfsr_translink_qld.py:89-115 | without a start date and time, "now" and no filters; with both, the scheduled start, the date for the calendar filter, and the start filter unless the start time is 0 |
| TranslinkQld.FreshJourney | vehicles/management/commands/import_gtfsr_translink_qld.py:117-186 | a new journey with the trip id as code, the planned start, and the trip's service, headsign and line name |
| TranslinkQld.Decide | vehicles/management/commands/import_gtfsr_translink_qld.py:81-190 | the latest journey is reused exactly when its code is the trip id, before any lookup; a failure exactly when a given date or time does not parse or their sum at noon overflows `datetime` (line 97); otherwise a fresh journey starting at the scheduled start, or now without schedule data |
| GtfsTime.OrdinalInRange | vehicles/management/commands/import_gtfsr_translink_qld.py:92-95 | every date `strptime` gives has an ordinal from 1 to that of 9999-12-31, so its midnight is within `datetime`'s range |
| GtfsTime.LastDayNoonOverflows | vehicles/management/commands/import_gtfsr_translink_qld.py:92-99 | "99991231" with "12:00:00" gives no start: the sum at noon reaches 10000-01-01 |
| GtfsTime.LastDayMorningFits | vehicles/management/commands/import_gtfsr_translink_qld.py:92-99 | "99991231" with "11:59:59" still gives a start |
| GtfsTime.LastDayStart | vehicles/management/commands/import_gtfsr_translink_qld.py:92-99 | on 9999-12-31 a start exists exactly when the start time is under 12 hours |
| TranslinkQld.LastDayNoonFails | vehicles/management/commands/import_gtfsr_translink_qld.py:92-99 | an item not reusing its journey, placed at noon on 9999-12-31, fails (OverflowError at line 97) |
| TranslinkQld.MidnightStartNotFiltered | vehicles/management/commands/import_gtfsr_translink_qld.py:153-157 | a start time of "00:00:00" is falsy, so the fallback does not filter by start |
| TranslinkQld.PlanStart | vehicles/management/commands/import_gtfsr_translink_qld.py:89-115 | the step-by-step start computes StartPlan |
| TranslinkQld.DecideJourney | vehicles/management/commands/import_gtfsr_translink_qld.py:81-186 | the step-by-step reuse check, start plan and cascade compute Decide |
| TranslinkQld.GetJourney | vehicles/management/commands/import_gtfsr_translink_qld.py:81-190 | carries out Decide on the vehicle: the operator is adopted and the item recorded on a fresh journey only |
| TranslinkQld.Occupancy | vehicles/management/commands/import_gtfsr_translink_qld.py:198 | status 0 gives None (not "Empty"); statuses 1 to 8 map through the table; others give None |
| TranslinkQld.CreateVehicleLocation | vehicles/management/commands/import_gtfsr_translink_qld.py:192-198 | heading by Heading, the position as given, occupancy by Occupancy |
| GtfsrWorldwide.BuiltInOccupancies | vehicles/management/commands/import_gtfsr_worldwide.py:19-29 | the built-in table has the int keys 0 to 8 with the OccupancyStatus names |
| GtfsrWorldwide.FromJson | vehicles/management/commands/import_gtfsr_worldwide.py:76-77 | a mapping from the settings has string keys only, with the same entries |
| GtfsrWorldwide.DoSource | vehicles/management/commands/import_gtfsr_worldwide.py:62-79 | the time zone defaults to "UTC"; the code scheme is overridden only when the key is present; the occupancy mapping defaults to the built-in table |
| GtfsrWorldwide.Defaults | vehicles/management/commands/import_gtfsr_worldwide.py:62-79 | without settings every default holds |
| GtfsrWorldwide.WithApiKey | vehicles/management/commands/import_gtfsr_worldwide.py:81-88 | a truthy API key sets "x-api-key" and keeps every other header; without one the headers are unchanged |
| GtfsrWorldwide.WithApiKeyIdempotent | vehicles/management/commands/import_gtfsr_worldwide.py:81-88 | setting the key a second time changes nothing |
| GtfsrWorldwide.FeedSettings.constructor | vehicles/management/commands/import_gtfsr_worldwide.py:83-84 | the importer holds the settings' headers and API key |
| GtfsrWorldwide.FeedSettings.RequestHeaders | vehicles/management/commands/import_gtfsr_worldwide.py:81-91 | the headers sent are WithApiKey of the settings' dict, which is updated in place when present |
| GtfsrWorldwide.PollTwice | vehicles/management/commands/import_gtfsr_worldwide.py:81-91 | two polls send the same headers |
| GtfsrWorldwide.Decide | vehicles/management/commands/import_gtfsr_worldwide.py:99-190 | a failure exactly when the start date or time does not parse or their sum at noon overflows `datetime` (line 106), even for a reused journey; reuse exactly when the latest journey has the trip id; the fallback always filters by start time and direction |
| GtfsrWorldwide.LastDayNoonFails | vehicles/management/commands/import_gtfsr_worldwide.py:101-108 | an item placed at noon on 9999-12-31 fails even when its journey would be reused |
| GtfsrWorldwide.DecideJourney | vehicles/management/commands/import_gtfsr_worldwide.py:99-186 | the step-by-step start parse, reuse check and cascade compute Decide |
| GtfsrWorldwide.GetJourney | vehicles/management/commands/import_gtfsr_worldwide.py:99-190 | carries out Decide on the vehicle, adopting the trip's operator once |
| GtfsrWorldwide.OccupancyAsWritten | vehicles/management/commands/import_gtfsr_worldwide.py:198 | the lookup as written: a name only for a nonzero status under its int key |
| GtfsrWorldwide.JsonMappingNeverMatches | vehicles/management/commands/import_gtfsr_worldwide.py:76-77 | a mapping from the settings is never hit by the int status |
| GtfsrWorldwide.DocumentedMappingIgnored | vehicles/management/commands/import_gtfsr_worldwide.py:49-51 | the documented mapping {"0": "Empty", "1": "Few seats"} records nothing for status 1 |
| GtfsrWorldwide.Occupancy | vehicles/management/commands/import_gtfsr_worldwide.py:198 | the intended lookup: status 0 gives None; otherwise the int key, else the decimal string key |
| GtfsrWorldwide.BuiltInUnchanged | vehicles/management/commands/import_gtfsr_worldwide.py:19-29 | on the built-in table the intended lookup agrees with the written one |
| GtfsrWorldwide.JsonMappingUsed | vehicles/management/commands/import_gtfsr_worldwide.py:76-77 | a mapping from the settings is used by the intended lookup |
| GtfsrWorldwide.CreateVehicleLocation | vehicles/management/commands/import_gtfsr_worldwide.py:192-198 | heading by Heading, the position as given, occupancy by the intended lookup |
| VehicleCodes.SearchCode | vehicles/management/commands/import_vehicles.py:23-25 | `re.search("[A-Z]+\d+")`: the leftmost match, or None when none starts anywhere |
| VehicleCodes.CodeAtIsCode | vehicles/management/commands/import_vehicles.py:23-25 | a match is a whole `^[A-Z]+\d+$` code |
| VehicleCodes.NormalizeFleetNumber | vehicles/management/commands/import_vehicles.py:9-27 | an empty value is returned as it is; otherwise, upper-cased, the last '-' part when it is a whole `[A-Z]+\d+` code, else the leftmost `[A-Z]+\d+` match (SearchCode), else the upper-cased text |
| VehicleCodes.CodeIsNormal | vehicles/management/commands/import_vehicles.py:16-27 | a whole code that does not end in a newline is its own normal form |
| VehicleCodes.FleetNumberIdempotent | vehicles/management/commands/import_vehicles.py:9-27 | normalising twice gives the same as once, for values that do not end in a newline |
| VehicleCodes.FleetNumberExample | vehicles/management/commands/import_vehicles.py:16-21 | "TNXB-E1133" gives "E1133" |
| VehicleCodes.FleetNumberNewline | vehicles/management/commands/import_vehicles.py:17-21 | `$` matches before a final newline: "TNXB-E1133\n" gives "E1133\n", which then normalises to "E1133" |
| VehicleCodes.NumericFleetNumber | vehicles/management/commands/import_vehicles.py:14-27 | a numeric fleet number, read through `str`, normalises to its own digits |
| VehicleCodes.CollapseGaps | vehicles/management/commands/import_vehicles.py:46 | the result holds no whitespace or hyphen; with CollapseRun and CollapseNoGaps, each whole run of gaps becomes one "_" and other text is kept |
| VehicleCodes.CollapseGapsKeeps | vehicles/management/commands/import_vehicles.py:46 | collapsing keeps every character other than a separator, in order |
| VehicleCodes.CollapseRun | vehicles/management/commands/import_vehicles.py:46 | a whole run of whitespace and hyphens between gap-free text and text not starting with a gap becomes a single "_" |
| VehicleCodes.SkipGapsRun | vehicles/management/commands/import_vehicles.py:46 | the `+` of `[\s-]+` consumes the whole run of gaps and stops at the next character |
| VehicleCodes.DropToFirstUpper | vehicles/management/commands/import_vehicles.py:49 | the result is a suffix of the text that is empty or starts with a capital |
| VehicleCodes.DropsNoUpper | vehicles/management/commands/import_vehicles.py:49 | no character dropped before the result is a capital |
| VehicleCodes.RemoveSeps | vehicles/management/commands/import_vehicles.py:60 | the result holds no whitespace, "_" or "-" and is no longer than the text |
| VehicleCodes.RemoveSepsAppend | vehicles/management/commands/import_vehicles.py:60 | removal works piece by piece, so every other character is kept, in order |
| VehicleCodes.RemoveSepsNone | vehicles/management/commands/import_vehicles.py:60 | text without separators is left as it is |
| VehicleCodes.RegAt | vehicles/management/commands/import_vehicles.py:52-57 | a word-bounded match of 2 capitals, 2 digits, an optional separator and 3 capitals |
| VehicleCodes.SearchReg | vehicles/management/commands/import_vehicles.py:52-57 | `re.search`: the position of the leftmost registration match; no match before it; None exactly when there is none |
| VehicleCodes.UkForm | vehicles/management/commands/import_vehicles.py:47-60 | after dropping what precedes the first capital, the two groups of the leftmost match joined (a UK registration shape); with no match, the text with all separators removed |
| VehicleCodes.NormalizeRegistration | vehicles/management/commands/import_vehicles.py:30-60 | an empty value is returned as it is; TMSB collapses gaps of the stripped upper-cased text to "_"; other registrations take UkForm; no gaps are left |
| VehicleCodes.TmsbExample | vehicles/management/commands/import_vehicles.py:42-46 | "RX20-RJV-201" gives "RX20_RJV_201" |
| VehicleCodes.RegistrationExample | vehicles/management/commands/import_vehicles.py:47-57 | "AB12-CDE" gives "AB12CDE" |
| VehicleCodes.RegistrationIsNormal | vehicles/management/commands/import_vehicles.py:30-60 | a registration in the form AB12CDE is its own normal form |
| VehicleCodes.NormalizeSlug | vehicles/management/commands/import_vehicles.py:63-81 | lower-cased; with three or more '-' parts whose first two are equal, the text after the first '-'; else, with a '-', a last part of the form `[a-z]+\d+`; else the whole lower-cased slug; always a suffix of it |
| VehicleCodes.DropRepeatedHead | vehicles/management/commands/import_vehicles.py:70-73 | joining all parts but the second, when the first two are equal, is the slug after its first part |
| VehicleCodes.SlugExample | vehicles/management/commands/import_vehicles.py:70-73 | "tnxb-tnxb-e1133" gives "tnxb-e1133" |
| VehicleCodes.SlugNewline | vehicles/management/commands/import_vehicles.py:75-79 | `$` also matches before a final newline: "tnxb-e1133\n" gives "e1133\n" |
| VehicleCodes.SlugCode | vehicles/management/commands/import_vehicles.py:63-81 | `normalize_slug` of an API value: None for null or a missing key, else the normalised text of the string or number |
| VehicleCodes.SelectCode | vehicles/management/commands/import_vehicles.py:159-177 | each branch: the registration when asked for and truthy; in TMSB format a "tmsb-" slug of four or more parts gives its tail as registration, a shorter one the registration or else the slug, any other slug (a missing one read as "") its normal form, and a non-zero numeric slug raises; else a truthy fleet number; else the slug; no code exactly when the slug is null (TMSB) or the fleet number is falsy and the slug null or missing |
| VehicleCodes.TmsbTail | vehicles/management/commands/import_vehicles.py:162-167 | rejoining the parts after "tmsb" gives the slug after "tmsb-" |
| VehicleImport.Defaults | vehicles/management/commands/import_vehicles.py:159-196 | None exactly when choosing the code raises; else the selected code, the operator, the normalised fleet number only when truthy, the normalised registration or "" |
| VehicleImport.Matching | vehicles/management/commands/import_vehicles.py:206-207 | exactly the vehicles of the operator whose code matches case-insensitively, in id order |
| VehicleImport.ImportCounts | vehicles/management/commands/import_vehicles.py:133-214 | created + updated equals the number of records, and the table grows by created |
| VehicleImport.PlaceKeepsOthers | vehicles/management/commands/import_vehicles.py:206-214 | updating or creating one vehicle of the operator leaves every other operator's vehicle in place and only appends vehicles of the operator |
| VehicleImport.ImportKeepsOthers | vehicles/management/commands/import_vehicles.py:206-214 | vehicles of other operators keep their place and fields; vehicles are only added, and only for this operator |
| VehicleImport.ImportFindable | vehicles/management/commands/import_vehicles.py:159-214 | after a successful import no record's code choice raised, and every record's code finds a vehicle of the operator |
| VehicleImport.ImportAllExtend | vehicles/management/commands/import_vehicles.py:136-214 | importing one more record is one more step |
| VehicleImport.FailureSticks | vehicles/management/commands/import_vehicles.py:159-207 | once the import of a prefix of the records has failed (a code choice raised or a code matched several vehicles), the whole import fails |
| VehicleImport.VehicleTable.constructor | vehicles/management/commands/import_vehicles.py:120-134 | the table starts with the given vehicles |
| VehicleImport.VehicleTable.ImportVehicles | vehicles/management/commands/import_vehicles.py:120-217 | the loop succeeds exactly when ImportAll does, leaving its table and counters; on failure the table is unchanged |
| ThirdRails.ParseCoordinates | vehicles/management/commands/import_thirdrails.py:86-107 | a point exactly when the text has two comma-separated numbers with longitude in [-180, 180] and latitude in [-90, 90]; the order is longitude, latitude |
| ThirdRails.CoordinatesOrder | vehicles/management/commands/import_thirdrails.py:93-104 | "lng,lat" in range reads back as the point (lng, lat) |
| ThirdRails.CoordinatesTooMany | vehicles/management/commands/import_thirdrails.py:93-95 | three comma-separated fields give no point |
| ThirdRails.ParseSpeed | vehicles/management/commands/import_thirdrails.py:109-115 | 0 for text without digits (and for ""); with SpeedOfFirstRun, the value of the first run of digits |
| ThirdRails.SpeedOfFirstRun | vehicles/management/commands/import_thirdrails.py:114-115 | digit-free text, then digits, then anything not starting with a digit give the value of those digits |
| ThirdRails.FirstDigitAfter | vehicles/management/commands/import_thirdrails.py:114 | the search for the first digit stops right after a digit-free prefix |
| ThirdRails.SpeedExample | vehicles/management/commands/import_thirdrails.py:109-115 | "103 km/h" gives 103 |
| ThirdRails.OperatorFor | vehicles/management/commands/import_thirdrails.py:52-63 | TSW and TSC get fixed names and slugs; any other simulator is its own name, and its slug is the name character by character, lower-cased, with each space turned into "-" |
| ThirdRails.NewVehicle | vehicles/management/commands/import_thirdrails.py:117-148 | none without a UniqueName; code `UniqueName[:50]`; name `Loco[:255]` when Loco is non-empty, else `Name[:255]`; the data fields thirdrails_id, loco, simulator and route_name |
| ThirdRails.NewJourney | vehicles/management/commands/import_thirdrails.py:153-186 | none when the Points do not parse; otherwise route name `Name[:64]`, destination `Name[:255]`, the given time, the parsed point and speed, and the data fields |
| ThirdRails.Records | vehicles/management/commands/import_thirdrails.py:203-209 | a single object is wrapped into a one-element list |
| ThirdRails.FindVehicle | vehicles/management/commands/import_thirdrails.py:123-127 | the first vehicle whose thirdrails_id is the unique name, None exactly when there is none |
| ThirdRails.FindOperator | vehicles/management/commands/import_thirdrails.py:72-79 | `get` by name: the one operator with the name, none, or several (which raises) |
| ThirdRails.DistinctNeverSeveral | vehicles/management/commands/import_thirdrails.py:72-79 | while no two operators share a name the lookup never finds several |
| ThirdRails.OperatorStep | vehicles/management/commands/import_thirdrails.py:52-84 | None exactly when several operators have the name; otherwise the one found, table unchanged, or a new operator appended with the naming slug, GB region and mode "train"; distinct names stay distinct |
| ThirdRails.VehicleStep | vehicles/management/commands/import_thirdrails.py:117-151 | the vehicle already carrying this unique name, store unchanged; else a new vehicle appended under the operator; None exactly when that operator lookup raises |
| ThirdRails.ItemStep | vehicles/management/commands/import_thirdrails.py:229-269 | an item is processed exactly when it has a unique name and its operator lookup does not raise; a skipped item changes nothing; a journey is added only when the item is updated, and earlier journeys stay |
| ThirdRails.Unchanged | vehicles/management/commands/import_thirdrails.py:244-251 | an item is unchanged when the vehicle has non-empty cached data whose Points equal the item's |
| ThirdRails.ChangedCreatesJourney | vehicles/management/commands/import_thirdrails.py:244-257 | a processed item creates a journey exactly when it is not Unchanged and its Points parse |
| ThirdRails.UnchangedCreatesNoJourney | vehicles/management/commands/import_thirdrails.py:244-251 | an item whose Points equal the cached Points creates no journey |
| ThirdRails.JourneyBecomesLatest | vehicles/management/commands/import_thirdrails.py:188-192 | a created journey becomes its vehicle's latest journey, with the item as latest data |
| ThirdRails.ImportCounters | vehicles/management/commands/import_thirdrails.py:229-269 | processed counts at most the items with a unique name, exactly those while operator names are distinct (which the import keeps); updated is at most processed; each update adds one journey and the journeys already stored are kept |
| ThirdRails.ImportAllExtend | vehicles/management/commands/import_thirdrails.py:231-264 | importing one more item is one more step |
| ThirdRails.ThirdRailsImporter.constructor | vehicles/management/commands/import_thirdrails.py:64-70 | the importer over the given tables and GB region |
| ThirdRails.ThirdRailsImporter.GetOrCreateOperator | vehicles/management/commands/import_thirdrails.py:52-84 | performs OperatorStep, reporting whether it raised, and leaves vehicles and journeys alone |
| ThirdRails.ThirdRailsImporter.GetOrCreateVehicle | vehicles/management/commands/import_thirdrails.py:117-151 | performs VehicleStep, reporting whether it raised; on failure nothing changes |
| ThirdRails.ThirdRailsImporter.CreateVehicleJourney | vehicles/management/commands/import_thirdrails.py:153-194 | a journey exactly when NewJourney gives one; it is appended and becomes the vehicle's latest |
| ThirdRails.ThirdRailsImporter.ImportItem | vehicles/management/commands/import_thirdrails.py:231-269 | performs ItemStep |
| ThirdRails.ThirdRailsImporter.ImportNext | vehicles/management/commands/import_thirdrails.py:232-264 | one turn of the loop leaves the store and counters ImportAll gives for one more item |
| ThirdRails.ThirdRailsImporter.ImportData | vehicles/management/commands/import_thirdrails.py:218-264 | the loop with its counters performs ImportAll |
| ThirdRailsScript.ParseCoordinates | test_thirdrails.py:12-33 | None for None or "", for anything but two comma parts, or out of range; otherwise a point in range |
| ThirdRailsScript.ParseSpeed | test_thirdrails.py:36-42 | 0 for None or "" |
| ThirdRailsScript.SameCoordinates | test_thirdrails.py:12-33 | the script's coordinate parser equals the importer's on every string |
| ThirdRailsScript.SameSpeed | test_thirdrails.py:36-42 | the script's speed parser equals the importer's on every text |
| ThirdRailsScript.NonNumericGivesNone | test_thirdrails.py:23-33 | a part that float rejects gives None rather than an error |
| Rentor.VehicleIdentity | vehicles/management/commands/import_rentor.py:36-38 | Name when non-empty, else UniqueName; none exactly when neither applies |
| Rentor.ItemIdentity | vehicles/management/commands/import_rentor.py:40-45 | Points whenever the key is present, else UniqueName or "" |
| Rentor.JourneyIdentity | vehicles/management/commands/import_rentor.py:47-53 | (Loco or "", "forward", Simulator or "") |
| Rentor.NewVehicle | vehicles/management/commands/import_rentor.py:55-68 | always the source, operator "THRA" and the identity as code; a name only with Loco; notes "Speed: <Speed>" only with Speed |
| Rentor.FindVehicle | vehicles/management/commands/import_rentor.py:70-75 | the first vehicle of operator THRA or this source whose code matches case-insensitively, None exactly when there is none |
| Rentor.GetVehicle | vehicles/management/commands/import_rentor.py:55-77 | a matching vehicle is returned unchanged; otherwise a new vehicle is appended and reported as created |
| Rentor.GetVehicleStable | vehicles/management/commands/import_rentor.py:70-77 | asking again for the same item finds the vehicle and creates nothing |
| Rentor.GetJourney | vehicles/management/commands/import_rentor.py:79-88 | route name Loco when the key is present, else "Unknown"; direction "forward"; destination Simulator when present, else "Unknown" |
| Rentor.CreateVehicleLocation | vehicles/management/commands/import_rentor.py:90-99 | no location without Points or without exactly two comma parts; otherwise the point (longitude, latitude) with the heading; a non-number raises |
| Rentor.LocationOrder | vehicles/management/commands/import_rentor.py:93-98 | "lng,lat" gives the point (lng, lat) whatever its range |
| Listen.GetContent | vehicles/management/commands/listen.py:8-17 | a Markdown link labelled with the slug to the vehicle's page |
| Listen.GetContentInjective | vehicles/management/commands/listen.py:8-17 | different slugs never get the same link |
| Listen.EncodePayload | vehicles/management/commands/listen.py:30 | the trigger's payload is the slug, one "|" and the operator id or "" |
| Listen.DecodePayload | vehicles/management/commands/listen.py:44-46 | the slug is the text before the first "|", the operator the next part, or "" without "|" |
| Listen.RoundTrip | vehicles/management/commands/listen.py:30-46 | decoding the trigger's payload gives back the slug and the operator (or ""), when neither holds "|" |
| Listen.Message | vehicles/management/commands/listen.py:44-50 | the link of the slug, followed by the mention exactly when the operator is "NCTR" |

## Left out

- HTTP and transport are not modelled: `requests` sessions, `get_items`' request, `fetch_data`'s request, `download_if_modified` and the webhook POST. Headers and decoded responses are modelled as values.
- The ORM is not modelled: `bulk_create`, `bulk_update`, `update_or_create`, `.delete()` and the COPY cursor. Tables are sequences and maps. The one transaction of the core, `@transaction.atomic` on `import_vehicles` (import_vehicles.py:119), is modelled by `VehicleImport.VehicleTable.ImportVehicles` leaving the table unchanged on failure.
- GtfsTrips.LoadTrips: a failed load gives None, as if nothing were written. `import_gtfs_worldwide.py` runs in no transaction, so after a KeyError in the trip loop (lines 391, 403, 408) the stops (line 234), the services and routes of `handle_route` (lines 348-353) and every batch of 1000 trips already flushed (line 435) stay written. The model does not capture these partial writes.
- Ids given by `bulk_create` are taken as consecutive numbers from a `firstPk` parameter.
- The pg_notify trigger, the LISTEN loop and its `sleep` are not modelled. Only the payload format and its split are.
- The post-pass aggregates (`do_stop_usages`, `update_search_vector`, the region majority vote) are not modelled. They are ORM aggregate queries.
- `handle_operator` is only partly modelled. The code it derives is (`GtfsSettings.AgencyCode`). Its Operator lookup and creation depend on the database, so the operator an agency gets is a parameter (`operatorFor`).
- Shapes, geometry and floats are not modelled:
  - shapely's `project` and `substring` and the LineString test are function parameters.
  - Saving shapes is not modelled.
  - Coordinates are exact reals, and `float()` is a parameter.
- gtfs_kit feed parsing and `get_calendars` are not modelled. Feed tables are sequences of rows, calendars are a map, and the calendar-active filter is a function parameter.
- `MODES` and vehicle modes are not modelled. They hold no decisions.
- Time zones are not modelled. Date-times are naive seconds with a zone tag, so there is no DST. ThirdRails.NewJourney therefore leaves out the journey's `date` field, `timezone.localtime().date()` (import_thirdrails.py:172), which depends on the server's zone.
- `TranslinkQld` takes "now" as a parameter (`StartPlan`, `Decide`). `Rentor` reads no clock.
- The polling loops and the parent live-import command are not modelled (`ImportLiveVehiclesCommand`, the import_gtfsr_ie base). Neither is part of this model.
- GtfsrWorldwide.DoSource: the default vehicle code scheme is the source name, which `handle` sets at import_gtfsr_worldwide.py:59. The parent's `do_source`, called first, is not part of this model.
- GtfsTime.ParseDuration covers "S", "M:S", "H:M:S", the empty text (zero) and one final newline. Days, signs, fractions and ISO 8601, which Django's `parse_duration` also accepts, are not modelled; with one of them the model gives None.
- GtfsStopTimes takes `parse_duration` as the parameter `secs`.
- GtfsTime.ParseDate covers only the eight-digit form of `%Y%m%d`. `strptime` also accepts shorter fields.
- RadarItem.Item: every value of a feed item is a string. A numeric `Speed` would raise TypeError in `parse_speed` (import_thirdrails.py:114); the item loop catches it (line 266) and the item is left unprocessed. That path is not modelled.
- Text is ASCII only: no Unicode case mapping, whitespace or `\d` digits beyond ASCII.
- VehicleCodes.ApiValue: JSON floats, booleans, lists and objects are not modelled. Strings, integers, `null` and a missing key are.
- VehicleCodes.FleetNumberIdempotent: holds only for values that do not end in a newline. With one, `$` keeps the newline in the first result and the second pass drops it (FleetNumberNewline).
- GtfsRoutes.OperatorsOf: an empty (NaN) `agency_id` cell is treated like a missing column. pandas would file the agency under a NaN key.
- GtfsTrips.FirstLowest and GtfsTrips.LastHighest pick the positions a stable sort would. The sort itself is not modelled.
- Line 425 of `import_gtfs_worldwide.py` is indented 21 spaces, after a line at 24 and blocks at 20 and 16. A dedent to a level no enclosing block has is an IndentationError, so CPython rejects the whole module and the command cannot be loaded as written. There is no behaviour to model as written; `GtfsTrips.BuildTrip` models it as intended, at the level of line 422: the destination always comes from the last stop.
- `region_handling` modes are modelled only for admin areas, not for the later region pass.
- Operator matching by name or url (`operator_matching`) is not modelled. It is database matching inside `handle_operator`.
- `import_vehicle_data.py`, `delete_source.py`, `setup_rentor.py` and `temp_check_source.py` are not part of this model. They are HTTP pagination or one-off ORM scripts.
- `test_api` in `test_thirdrails.py` is not modelled. It is network calls and printing.
- Vehicle types, liveries and features in `import_vehicles` are not modelled. They are `get_or_create` calls with no decisions.

## Findings

| source | as written | input that shows it | evidently intended | confidence | as-written member | corrected member |
|---|---|---|---|---|---|---|
| vehicles/management/commands/import_gtfsr_worldwide.py:198 | `occupancy_mapping.get(status or None)` looks a status up by its int value. A mapping from the settings is JSON, so its keys are strings ("0", "1", …) and are never hit. | settings `{"occupancy_mapping": {"0": "Empty", "1": "Few seats"}}` (the docstring's own example, lines 49-51) and occupancy status 1: no occupancy is recorded | the configured mapping is used, keyed by the status written in decimal | not executed | GtfsrWorldwide.OccupancyAsWritten | GtfsrWorldwide.Occupancy |
