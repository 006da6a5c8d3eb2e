/** What the two GTFS-Realtime importers (vehicles/management/commands/
    import_gtfsr_translink_qld.py and import_gtfsr_worldwide.py) share: the
    schedule tables they query, the queries themselves, the VehiclePosition
    fields they read, the journey they build and the vehicle they update.
    Tables are sequences in primary-key order, so the first row of a query
    is the lowest-numbered one. */
module LiveSchedule {
  import opened Wrappers
  import opened Text
  import opened GtfsTime
  import opened Tables

  datatype ServiceRow = ServiceRow(current: bool, lineName: string)
  /** A route: its data source, code and service (a position in the
      services table). */
  datatype RouteRow = RouteRow(source: string, code: string, service: Option<nat>)
  /** A trip: its route (a position in the routes table), ticket machine
      code, start in seconds, direction, calendar, headsign and operator. */
  datatype TripRow = TripRow(
    route: nat,
    ticketCode: string,
    start: int,
    inbound: bool,
    calendar: nat,
    headsign: string,
    operator: Option<string>)

  datatype Schedule = Schedule(services: seq<ServiceRow>, routes: seq<RouteRow>, trips: seq<TripRow>)

  /** Foreign keys point at existing rows. */
  predicate Valid(sc: Schedule) {
    (forall r :: 0 <= r < |sc.routes| ==>
       sc.routes[r].service.Some? ==> sc.routes[r].service.value < |sc.services|) &&
    (forall t :: 0 <= t < |sc.trips| ==> sc.trips[t].route < |sc.routes|)
  }

  /** The service a trip's route belongs to. */
  function TripService(sc: Schedule, t: nat): Option<nat>
    requires Valid(sc) && t < |sc.trips|
  {
    sc.routes[sc.trips[t].route].service
  }

  /** `Service.objects.filter(current=True, route__source=source,
      route__code=code).distinct()`. */
  function ServicesByRouteCode(sc: Schedule, source: string, code: string): (r: seq<nat>)
    ensures forall j :: 0 <= j < |r| ==> r[j] < |sc.services| && sc.services[r[j]].current
  {
    Filter(|sc.services|, (s: nat) =>
      s < |sc.services| && sc.services[s].current &&
      exists k | 0 <= k < |sc.routes| ::
        sc.routes[k].service == Some(s) && sc.routes[k].source == source && sc.routes[k].code == code)
  }

  /** `Service.objects.filter(current=True, route__source=source,
      route__trip__ticket_machine_code=code).distinct()`. */
  function ServicesByTripCode(sc: Schedule, source: string, code: string): (r: seq<nat>)
    ensures forall j :: 0 <= j < |r| ==> r[j] < |sc.services| && sc.services[r[j]].current
  {
    Filter(|sc.services|, (s: nat) =>
      s < |sc.services| && sc.services[s].current &&
      exists t | 0 <= t < |sc.trips| ::
        sc.trips[t].ticketCode == code && sc.trips[t].route < |sc.routes| &&
        sc.routes[sc.trips[t].route].service == Some(s) && sc.routes[sc.trips[t].route].source == source)
  }

  /** The trip belongs to a route of `source`. */
  predicate FromSource(sc: Schedule, t: nat, source: string)
    requires Valid(sc) && t < |sc.trips|
  {
    sc.routes[sc.trips[t].route].source == source
  }

  /** `Trip.objects.filter(ticket_machine_code=code)` narrowed to the
      service when there is one, else to the source. */
  function TripsByCode(sc: Schedule, code: string, service: Option<nat>, source: string): (r: seq<nat>)
    requires Valid(sc)
    ensures forall j :: 0 <= j < |r| ==> r[j] < |sc.trips| && sc.trips[r[j]].ticketCode == code
    ensures service.Some? ==> forall j :: 0 <= j < |r| ==> TripService(sc, r[j]) == service
    ensures service.None? ==> forall j :: 0 <= j < |r| ==> FromSource(sc, r[j], source)
  {
    Filter(|sc.trips|, (t: nat) =>
      t < |sc.trips| && sc.trips[t].ticketCode == code &&
      if service.Some? then TripService(sc, t) == service else FromSource(sc, t, source))
  }

  /** The trips of the suffix fallback: of routes of `source`, with this
      start and direction when `start` is given, and of the service when
      there is one. */
  function TripsBySchedule(sc: Schedule, source: string, start: Option<int>, inbound: bool, service: Option<nat>)
    : (r: seq<nat>)
    requires Valid(sc)
    ensures forall j :: 0 <= j < |r| ==> r[j] < |sc.trips| && FromSource(sc, r[j], source)
    ensures start.Some? ==> forall j :: 0 <= j < |r| ==>
              sc.trips[r[j]].start == start.value && sc.trips[r[j]].inbound == inbound
    ensures service.Some? ==> forall j :: 0 <= j < |r| ==> TripService(sc, r[j]) == service
  {
    Filter(|sc.trips|, (t: nat) =>
      t < |sc.trips| && FromSource(sc, t, source) &&
      (start.Some? ==> sc.trips[t].start == start.value && sc.trips[t].inbound == inbound) &&
      (service.Some? ==> TripService(sc, t) == service))
  }

  /** `route_id.split("_", 1)[1]` when it holds "_", else the whole id. */
  function RouteSuffix(routeId: string): (r: string)
    ensures !Contains(routeId, "_") ==> r == routeId
    ensures Contains(routeId, "_") ==> EndsWith(routeId, "_" + r) && !Contains(routeId[..|routeId| - |r| - 1], "_")
  {
    match Find(routeId, "_")
    case None => routeId
    case Some(i) =>
      assert routeId[i..i + 1] == "_";
      assert routeId[i + 1..] == routeId[|routeId| - |routeId[i + 1..]|..];
      assert routeId[..i] == routeId[..|routeId| - |routeId[i + 1..]| - 1];
      NoEarlierOccurrence(routeId, i);
      routeId[i + 1..]
  }

  /** No "_" before the first one. */
  lemma NoEarlierOccurrence(s: string, i: nat)
    requires i <= |s| && forall j: nat :: j < i ==> !OccursAt(s, "_", j)
    ensures !Contains(s[..i], "_")
  {
    forall j: nat | j <= i ensures !OccursAt(s[..i], "_", j) {
      if j + 1 <= i {
        assert s[..i][j..j + 1] == s[j..j + 1];
        assert !OccursAt(s, "_", j);
      }
    }
  }

  /** The routes of `source` with a service whose code ends with
      "_" + suffix: the joined rows of the suffix query. */
  function SuffixRoutes(sc: Schedule, source: string, suffix: string): (r: seq<nat>)
    ensures forall j :: 0 <= j < |r| ==> r[j] < |sc.routes| && sc.routes[r[j]].service.Some?
  {
    Filter(|sc.routes|, (k: nat) =>
      k < |sc.routes| && sc.routes[k].service.Some? && sc.routes[k].source == source &&
      EndsWith(sc.routes[k].code, "_" + suffix))
  }

  /** `Service.objects.filter(route__source=source,
      route__code__endswith="_" + suffix).get()`, with None where it
      raises: the service exactly when the join yields exactly one row (no
      `current` filter, no `distinct`). */
  function SuffixService(sc: Schedule, source: string, suffix: string): (s: Option<nat>)
    ensures s.Some? <==> |SuffixRoutes(sc, source, suffix)| == 1
    ensures s.Some? ==> s == sc.routes[SuffixRoutes(sc, source, suffix)[0]].service
  {
    var rs := SuffixRoutes(sc, source, suffix);
    if |rs| == 1 then sc.routes[rs[0]].service else None
  }

  /** The calendar ids of trips, in order. */
  function CalendarIds(sc: Schedule, ts: seq<nat>): seq<nat>
    requires forall j :: 0 <= j < |ts| ==> ts[j] < |sc.trips|
  {
    seq(|ts|, j requires 0 <= j < |ts| => sc.trips[ts[j]].calendar)
  }

  /** Choosing one trip of a non-empty result: with `date`, more than one
      trip goes through the calendars active on that date (`get_calendars`,
      the parameter `active`) and the first survivor is taken, possibly
      none; otherwise the first trip. */
  function Pick(sc: Schedule, ts: seq<nat>, date: Option<Date>, active: (Date, seq<nat>) -> set<nat>): (t: Option<nat>)
    requires forall j :: 0 <= j < |ts| ==> ts[j] < |sc.trips|
    ensures t.Some? ==> t.value in ts
    ensures |ts| == 0 ==> t.None?
    ensures |ts| == 1 || (|ts| > 1 && date.None?) ==> t == Some(ts[0])
    ensures t.Some? && |ts| > 1 && date.Some? ==> sc.trips[t.value].calendar in active(date.value, CalendarIds(sc, ts))
  {
    if |ts| == 0 then None
    else if |ts| > 1 && date.Some? then
      var cals := active(date.value, CalendarIds(sc, ts));
      var kept := Keep(ts, (t: nat) => t < |sc.trips| && sc.trips[t].calendar in cals);
      if |kept| > 0 then Some(kept[0]) else None
    else Some(ts[0])
  }

  /** The service and trip a cascade settles on. */
  datatype Match = Match(service: Option<nat>, trip: Option<nat>)

  predicate MatchIn(sc: Schedule, m: Match) {
    (m.service.Some? ==> m.service.value < |sc.services|) && (m.trip.Some? ==> m.trip.value < |sc.trips|)
  }

  /** The service both importers settle on before looking at trips: the
      first current service of `source` with a route of this code, else the
      first with a trip of this ticket machine code. */
  function FirstService(sc: Schedule, source: string, routeId: string, code: string): (s: Option<nat>)
    ensures |ServicesByRouteCode(sc, source, routeId)| > 0 ==> s == Some(ServicesByRouteCode(sc, source, routeId)[0])
    ensures |ServicesByRouteCode(sc, source, routeId)| == 0 ==>
              s == if |ServicesByTripCode(sc, source, code)| > 0 then Some(ServicesByTripCode(sc, source, code)[0]) else None
    ensures s.Some? ==> s.value < |sc.services| && sc.services[s.value].current
  {
    var byRoute := ServicesByRouteCode(sc, source, routeId);
    var services := if |byRoute| > 0 then byRoute else ServicesByTripCode(sc, source, code);
    if |services| > 0 then Some(services[0]) else None
  }

  /** The suffix fallback runs: no service, no trip of this code from the
      source, and a "_" in the code. */
  predicate UsesFallback(sc: Schedule, source: string, td: TripDescriptor)
    requires Valid(sc)
  {
    FirstService(sc, source, td.routeId, td.tripId).None? &&
    |TripsByCode(sc, td.tripId, None, source)| == 0 &&
    Contains(td.tripId, "_")
  }

  /** The service and trip of a VehiclePosition. `startFilter` is the start
      the fallback requires of its trips (with the direction), `date` the
      day whose calendars decide between several trips; each importer says
      when it passes them. */
  function Cascade(sc: Schedule, source: string, td: TripDescriptor, startFilter: Option<int>, date: Option<Date>,
                   active: (Date, seq<nat>) -> set<nat>): (m: Match)
    requires Valid(sc)
    ensures MatchIn(sc, m)
    ensures !UsesFallback(sc, source, td) ==> m.service == FirstService(sc, source, td.routeId, td.tripId)
    ensures UsesFallback(sc, source, td) ==> m.service == SuffixService(sc, source, RouteSuffix(td.routeId))
    ensures m.service.Some? && m.trip.Some? ==> TripService(sc, m.trip.value) == m.service
    ensures m.trip.Some? && !UsesFallback(sc, source, td) ==> sc.trips[m.trip.value].ticketCode == td.tripId
    ensures m.trip.Some? && m.service.None? ==> FromSource(sc, m.trip.value, source)
    ensures m.trip.Some? && UsesFallback(sc, source, td) ==>
              FromSource(sc, m.trip.value, source) &&
              (startFilter.Some? ==> sc.trips[m.trip.value].start == startFilter.value &&
                                     sc.trips[m.trip.value].inbound == (td.directionId == 1))
    ensures m.trip.None? && date.None? && !UsesFallback(sc, source, td) ==>
              |TripsByCode(sc, td.tripId, m.service, source)| == 0
  {
    var service := FirstService(sc, source, td.routeId, td.tripId);
    var trips := TripsByCode(sc, td.tripId, service, source);
    if |trips| == 0 && service.None? && Contains(td.tripId, "_") then
      var service' := SuffixService(sc, source, RouteSuffix(td.routeId));
      Match(service', Pick(sc, TripsBySchedule(sc, source, startFilter, td.directionId == 1, service'), date, active))
    else
      Match(service, Pick(sc, trips, date, active))
  }

  /** The cascade as both importers run it, reassigning `services`,
      `service` and `trips` in turn. */
  method MatchTrip(sc: Schedule, source: string, td: TripDescriptor, startFilter: Option<int>, date: Option<Date>,
                   active: (Date, seq<nat>) -> set<nat>) returns (service: Option<nat>, trip: Option<nat>)
    requires Valid(sc)
    ensures Match(service, trip) == Cascade(sc, source, td, startFilter, date, active)
  {
    service := None;
    var services := ServicesByRouteCode(sc, source, td.routeId);
    if |services| == 0 {
      services := ServicesByTripCode(sc, source, td.tripId);
    }
    if |services| > 0 {
      service := Some(services[0]);
    }
    var trips := TripsByCode(sc, td.tripId, service, source);
    if !(|trips| > 0 || service.Some?) && Contains(td.tripId, "_") {
      service := SuffixService(sc, source, RouteSuffix(td.routeId));
      trips := TripsBySchedule(sc, source, startFilter, td.directionId == 1, service);
    }
    trip := Pick(sc, trips, date, active);
  }

  /** A VehicleJourney: its code, start, service, trip, destination and
      route name (the two strings default to ""). */
  datatype Journey = Journey(
    code: string,
    datetime: Option<DateTime>,
    service: Option<nat>,
    trip: Option<nat>,
    destination: string,
    routeName: string)

  /** The journey of a match: the trip's service stands in when none was
      found, the destination is the trip's headsign and the route name the
      service's line name. */
  function BuildJourney(sc: Schedule, code: string, start: DateTime, m: Match): (j: Journey)
    requires Valid(sc) && MatchIn(sc, m)
    ensures j.code == code && j.datetime == Some(start) && j.trip == m.trip
    ensures m.service.Some? ==> j.service == m.service
    ensures m.trip.Some? ==> j.service == TripService(sc, m.trip.value)
                             || (m.service.Some? && j.service == m.service)
    ensures m.trip.Some? ==> j.destination == sc.trips[m.trip.value].headsign
    ensures j.service.Some? ==> j.service.value < |sc.services| && j.routeName == sc.services[j.service.value].lineName
    ensures j.service.None? ==> j.routeName == ""
  {
    var service := if m.trip.Some? && m.service.None? then TripService(sc, m.trip.value) else m.service;
    Journey(
      code,
      Some(start),
      service,
      m.trip,
      if m.trip.Some? then sc.trips[m.trip.value].headsign else "",
      if service.Some? then sc.services[service.value].lineName else "")
  }

  /** The operator a vehicle ends with: the trip's operator when the
      vehicle had none and the trip has one, else the vehicle's own. */
  function AdoptOperator(current: Option<string>, tripOperator: Option<string>): (r: Option<string>)
    ensures IsTruthy(current) ==> r == current
    ensures !IsTruthy(current) && IsTruthy(tripOperator) ==> r == tripOperator
    ensures !IsTruthy(current) && !IsTruthy(tripOperator) ==> r == current
  {
    if IsTruthy(tripOperator) && !IsTruthy(current) then tripOperator else current
  }

  /** What `get_journey` does: hand back the vehicle's latest journey,
      raise, or build a new journey (with the operator of its trip). */
  datatype Decision = Reuse(journey: Journey) | Failed | Fresh(journey: Journey, tripOperator: Option<string>)

  /** The operator of the matched trip. */
  function TripOperator(sc: Schedule, m: Match): Option<string>
    requires MatchIn(sc, m)
  {
    if m.trip.Some? then sc.trips[m.trip.value].operator else None
  }

  /** The journey of a cascade names the service of its trip's route
      whenever it has a trip. */
  lemma JourneyFollowsTrip(sc: Schedule, source: string, td: TripDescriptor, startFilter: Option<int>, date: Option<Date>,
                           active: (Date, seq<nat>) -> set<nat>, start: DateTime)
    requires Valid(sc)
    ensures var m := Cascade(sc, source, td, startFilter, date, active);
            var j := BuildJourney(sc, td.tripId, start, m);
            j.trip.Some? ==> j.service == TripService(sc, j.trip.value)
  {
  }

  /** Adopting twice changes nothing more: the operator is taken once. */
  lemma AdoptOnce(current: Option<string>, a: Option<string>, b: Option<string>)
    requires IsTruthy(a)
    ensures AdoptOperator(AdoptOperator(current, a), b) == AdoptOperator(current, a)
  {
  }

  /** The TripDescriptor of a VehiclePosition. */
  datatype TripDescriptor = TripDescriptor(routeId: string, tripId: string, startDate: string, startTime: string, directionId: int)

  /** A FeedEntity's VehiclePosition as the importers read it. */
  datatype FeedItem = FeedItem(
    vehicleId: string,
    trip: TripDescriptor,
    bearing: real,
    longitude: real,
    latitude: real,
    occupancyStatus: nat,
    timestamp: int)

  /** A vehicle's fields that `get_journey` reads and writes. */
  class LiveVehicle {
    var operatorId: Option<string>
    var latestJourney: Option<Journey>
    var latestJourneyData: Option<FeedItem>

    constructor (operatorId: Option<string>, latestJourney: Option<Journey>)
      ensures this.operatorId == operatorId && this.latestJourney == latestJourney
      ensures latestJourneyData.None?
    {
      this.operatorId := operatorId;
      this.latestJourney := latestJourney;
      latestJourneyData := None;
    }
  }

  /** What `get_journey` writes for a decision: a fresh journey makes the
      vehicle adopt its trip's operator when it has none and records the
      item as its latest journey data; handing back the latest journey, or
      failing, writes nothing. */
  method ApplyDecision(vehicle: LiveVehicle, d: Decision, item: FeedItem) returns (journey: Option<Journey>)
    modifies vehicle
    ensures match d
            case Reuse(j) => journey == Some(j) && unchanged(vehicle)
            case Failed => journey.None? && unchanged(vehicle)
            case Fresh(j, op) =>
              journey == Some(j) &&
              vehicle.operatorId == AdoptOperator(old(vehicle.operatorId), op) &&
              vehicle.latestJourney == old(vehicle.latestJourney) &&
              vehicle.latestJourneyData == Some(item)
  {
    match d
    case Reuse(j) =>
      journey := Some(j);
    case Failed =>
      journey := None;
    case Fresh(j, op) =>
      if IsTruthy(op) && !IsTruthy(vehicle.operatorId) {
        vehicle.operatorId := op;
      }
      vehicle.latestJourneyData := Some(item);
      journey := Some(j);
  }

  /** The occupancy table, the OccupancyStatus values of the GTFS Realtime
      VehiclePosition message. */
  function OccupancyName(status: nat): (r: Option<string>)
    ensures r.Some? <==> status <= 8
  {
    if status == 0 then Some("Empty")
    else if status == 1 then Some("Many seats available")
    else if status == 2 then Some("Few seats available")
    else if status == 3 then Some("Standing room only")
    else if status == 4 then Some("Crushed standing room only")
    else if status == 5 then Some("Full")
    else if status == 6 then Some("Not accepting passengers")
    else if status == 7 then Some("No data available")
    else if status == 8 then Some("Not boardable")
    else None
  }

  /** A VehicleLocation: heading, position and occupancy. */
  datatype Location = Location(heading: Option<real>, longitude: real, latitude: real, occupancy: Option<string>)

  /** `bearing or None`. */
  function Heading(bearing: real): (h: Option<real>)
    ensures h.None? <==> bearing == 0.0
    ensures h.Some? ==> h.value == bearing
  {
    if bearing == 0.0 then None else Some(bearing)
  }

  /** The vehicle identity of both importers' items: the text after the
      last "_" of the vehicle id, or the whole id. */
  function VehicleIdentity(vehicleId: string): (code: string)
    ensures '_' !in code
    ensures EndsWith(vehicleId, code)
    ensures '_' !in vehicleId ==> code == vehicleId
    ensures '_' in vehicleId ==> |code| < |vehicleId| && vehicleId[|vehicleId| - |code| - 1] == '_'
  {
    var parts := Split(vehicleId, '_');
    SplitLast(vehicleId, '_');
    if '_' in vehicleId then
      assert |parts| > 1 by {
        if |parts| == 1 {
          JoinSplit(vehicleId, '_');
        }
      }
      Last(parts)
    else
      SplitNoSep(vehicleId, '_');
      vehicleId
  }

  /** The example of import_gtfsr_translink_qld.py:45. */
  lemma VehicleIdentityExample(id: string, hex: string)
    requires hex == "A7393ED51E387246BB3D6249943091E8" && id == hex + "_2264"
    ensures VehicleIdentity(id) == "2264"
  {
    assert '_' !in hex;
    assert '_' !in "2264";
    assert id == hex + ['_'] + "2264";
    SplitTwo(hex, "2264", '_');
    assert id[|hex|] == '_';
  }
}
