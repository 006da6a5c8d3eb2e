/** The Translink Queensland GTFS-Realtime importer of
    vehicles/management/commands/import_gtfsr_translink_qld.py: how a
    VehiclePosition finds its journey in the schedule, which vehicle code it
    carries and what location it records. The items may lack a start date or
    time; then the journey starts "now" (the parameter `now`) and neither the
    start nor the calendar narrows the trips. */
module TranslinkQld {
  import opened Wrappers
  import opened Text
  import opened GtfsTime
  import opened LiveSchedule

  const SourceName := "Translink Queensland"
  const Zone := "Australia/Brisbane"

  /** Both the start date and the start time are non-empty. */
  predicate HasSchedule(td: TripDescriptor) {
    td.startDate != "" && td.startTime != ""
  }

  /** `get_journey_identity`: route, trip and start date. */
  function JourneyIdentity(item: FeedItem): (id: (string, string, string))
    ensures id.1 == item.trip.tripId
    ensures id.0 == item.trip.routeId && id.2 == item.trip.startDate
  {
    (item.trip.routeId, item.trip.tripId, item.trip.startDate)
  }

  /** What the item's schedule fields settle before the cascade: the
      journey's start, the start the fallback asks of its trips and the day
      whose calendars decide between trips. */
  datatype Plan = Plan(start: DateTime, startFilter: Option<int>, date: Option<Date>)

  /** None exactly when the item has a start date and time that do not
      parse (`strptime` or the `timedelta` arithmetic raises). Without
      them the start is `now` and nothing narrows the trips; with them the
      fallback narrows by start only when the start is not midnight (a
      zero `timedelta` is false). */
  function StartPlan(td: TripDescriptor, now: DateTime): (p: Option<Plan>)
    ensures p.None? <==> HasSchedule(td) && ScheduledStart(td.startDate, td.startTime, Zone).None?
    ensures p.Some? && !HasSchedule(td) ==> p.value == Plan(now, None, None)
    ensures p.Some? && HasSchedule(td) ==>
              Some(p.value.start) == ScheduledStart(td.startDate, td.startTime, Zone) &&
              p.value.date == ParseDate(td.startDate) && p.value.date.Some? &&
              (p.value.startFilter.Some? <==> ParseDuration(td.startTime) != Some(0)) &&
              (p.value.startFilter.Some? ==> Some(p.value.startFilter.value) == ParseDuration(td.startTime))
  {
    if !HasSchedule(td) then Some(Plan(now, None, None))
    else
      match ScheduledStart(td.startDate, td.startTime, Zone)
      case None => None
      case Some(start) =>
        var secs := ParseDuration(td.startTime).value;
        Some(Plan(start, if secs != 0 then Some(secs) else None, ParseDate(td.startDate)))
  }

  /** The journey a plan leads to, with the operator of its trip. */
  function FreshJourney(sc: Schedule, td: TripDescriptor, p: Plan, active: (Date, seq<nat>) -> set<nat>): (d: Decision)
    requires Valid(sc)
    ensures d.Fresh? && d.journey.code == td.tripId && d.journey.datetime == Some(p.start)
    ensures d.journey.trip.Some? ==>
              d.journey.trip.value < |sc.trips| &&
              d.journey.service == TripService(sc, d.journey.trip.value) &&
              d.journey.destination == sc.trips[d.journey.trip.value].headsign &&
              d.tripOperator == sc.trips[d.journey.trip.value].operator
    ensures d.journey.service.Some? ==>
              d.journey.service.value < |sc.services| &&
              d.journey.routeName == sc.services[d.journey.service.value].lineName
  {
    var m := Cascade(sc, SourceName, td, p.startFilter, p.date, active);
    Fresh(BuildJourney(sc, td.tripId, p.start, m), TripOperator(sc, m))
  }

  /** `get_journey` without the vehicle's writes: the latest journey when
      its code is the trip id (checked first, so an unparsable start never
      matters then), a failure when the start does not parse, else the
      journey of the plan. */
  function Decide(sc: Schedule, item: FeedItem, latest: Option<Journey>, now: DateTime,
                  active: (Date, seq<nat>) -> set<nat>): (d: Decision)
    requires Valid(sc)
    ensures d.Reuse? <==> latest.Some? && latest.value.code == item.trip.tripId
    ensures d.Reuse? ==> d.journey == latest.value
    ensures d.Failed? <==>
              !(latest.Some? && latest.value.code == item.trip.tripId) &&
              HasSchedule(item.trip) && ScheduledStart(item.trip.startDate, item.trip.startTime, Zone).None?
    ensures d.Fresh? ==> d.journey.code == item.trip.tripId
    ensures d.Fresh? && HasSchedule(item.trip) ==>
              d.journey.datetime == ScheduledStart(item.trip.startDate, item.trip.startTime, Zone)
    ensures d.Fresh? && !HasSchedule(item.trip) ==> d.journey.datetime == Some(now)
  {
    if latest.Some? && latest.value.code == item.trip.tripId then Reuse(latest.value)
    else
      match StartPlan(item.trip, now)
      case None => Failed
      case Some(p) => FreshJourney(sc, item.trip, p, active)
  }

  /** A midnight start (`start_time` "00:00:00") is false in Python, so the
      fallback then takes trips of any start and direction. */
  lemma MidnightStartNotFiltered(sc: Schedule, item: FeedItem, latest: Option<Journey>, now: DateTime,
                                 active: (Date, seq<nat>) -> set<nat>)
    requires Valid(sc) && HasSchedule(item.trip)
    requires item.trip.startTime == "00:00:00" && ParseDate(item.trip.startDate).Some?
    requires !(latest.Some? && latest.value.code == item.trip.tripId)
    ensures Decide(sc, item, latest, now, active).Fresh?
    ensures ParseDuration(item.trip.startTime) == Some(0)
    ensures Decide(sc, item, latest, now, active).journey.trip ==
              Cascade(sc, SourceName, item.trip, None, ParseDate(item.trip.startDate), active).trip
  {
    MidnightParses(item.trip.startTime);
  }

  /** A trip placed at noon on 9999-12-31 fails: the start passes
      `datetime.max` before the 12 hours come off, and `get_journey`
      raises OverflowError. */
  lemma LastDayNoonFails(sc: Schedule, item: FeedItem, latest: Option<Journey>, now: DateTime,
                         active: (Date, seq<nat>) -> set<nat>)
    requires Valid(sc)
    requires item.trip.startDate == "99991231" && item.trip.startTime == "12:00:00"
    requires !(latest.Some? && latest.value.code == item.trip.tripId)
    ensures Decide(sc, item, latest, now, active).Failed?
  {
    LastDayNoonOverflows(Zone);
  }

  /** The start, start filter and calendar day as `get_journey` works
      them out, one field at a time. */
  method PlanStart(td: TripDescriptor, now: DateTime) returns (p: Option<Plan>)
    ensures p == StartPlan(td, now)
  {
    if !HasSchedule(td) {
      return Some(Plan(now, None, None));
    }
    var scheduled := ScheduledStart(td.startDate, td.startTime, Zone);
    if scheduled.None? {
      return None;
    }
    var startFilter: Option<int> := None;
    var secs := ParseDuration(td.startTime).value;
    if secs != 0 {
      startFilter := Some(secs);
    }
    p := Some(Plan(scheduled.value, startFilter, ParseDate(td.startDate)));
  }

  /** The decision of `get_journey`, step by step: the latest journey is
      looked at before anything is parsed. */
  method DecideJourney(sc: Schedule, item: FeedItem, latest: Option<Journey>, now: DateTime,
                       active: (Date, seq<nat>) -> set<nat>) returns (d: Decision)
    requires Valid(sc)
    ensures d == Decide(sc, item, latest, now, active)
  {
    var td := item.trip;
    if latest.Some? && latest.value.code == td.tripId {
      return Reuse(latest.value);
    }
    var plan := PlanStart(td, now);
    if plan.None? {
      return Failed;
    }
    var start, startFilter, date := plan.value.start, plan.value.startFilter, plan.value.date;
    var service, trip := MatchTrip(sc, SourceName, td, startFilter, date, active);
    var m := Match(service, trip);
    d := Fresh(BuildJourney(sc, td.tripId, start, m), TripOperator(sc, m));
  }

  /** `get_journey`: the decision carried out on the vehicle. A fresh
      journey adopts its trip's operator when the vehicle has none and
      records the item as the vehicle's latest journey data; handing back
      the latest journey, or failing, writes nothing. */
  method GetJourney(sc: Schedule, item: FeedItem, vehicle: LiveVehicle, now: DateTime,
                    active: (Date, seq<nat>) -> set<nat>) returns (journey: Option<Journey>)
    requires Valid(sc)
    modifies vehicle
    ensures match Decide(sc, item, old(vehicle.latestJourney), now, active)
            case Reuse(j) => journey == Some(j) && unchanged(vehicle)
            case Failed => journey.None? && unchanged(vehicle)
            case Fresh(j, op) =>
              journey == Some(j) &&
              vehicle.operatorId == AdoptOperator(old(vehicle.operatorId), op) &&
              vehicle.latestJourney == old(vehicle.latestJourney) &&
              vehicle.latestJourneyData == Some(item)
  {
    var d := DecideJourney(sc, item, vehicle.latestJourney, now, active);
    journey := ApplyDecision(vehicle, d, item);
  }

  /** `occupancies.get(status or None)`: status 0 becomes None before the
      lookup, so "Empty" is never recorded. */
  function Occupancy(status: nat): (r: Option<string>)
    ensures status == 0 ==> r.None?
    ensures 1 <= status <= 8 ==> r == OccupancyName(status) && r.Some?
    ensures status > 8 ==> r.None?
  {
    if status == 0 then None else OccupancyName(status)
  }

  /** `create_vehicle_location`. */
  function CreateVehicleLocation(item: FeedItem): (loc: Location)
    ensures loc.heading == Heading(item.bearing)
    ensures loc.longitude == item.longitude && loc.latitude == item.latitude
    ensures loc.occupancy.Some? <==> 1 <= item.occupancyStatus <= 8
    ensures loc.occupancy.Some? ==> loc.occupancy == OccupancyName(item.occupancyStatus)
  {
    Location(Heading(item.bearing), item.longitude, item.latitude, Occupancy(item.occupancyStatus))
  }
}
