/** The configurable GTFS-Realtime importer of
    vehicles/management/commands/import_gtfsr_worldwide.py: its settings
    (time zone, vehicle code scheme, occupancy mapping, API key and
    headers), how a VehiclePosition finds its journey and what location it
    records. Unlike the Translink importer it always has a start date and
    time, works out the start before anything else, and always narrows by
    start and calendar. */
module GtfsrWorldwide {
  import opened Wrappers
  import opened Text
  import opened GtfsTime
  import opened LiveSchedule

  /** The `gtfsr` object of a data source's settings; None is a key that
      is not there. */
  datatype GtfsrSettings = GtfsrSettings(
    timezone: Option<string>,
    apiKey: Option<string>,
    headers: Option<map<string, string>>,
    vehicleCodeScheme: Option<string>,
    occupancyMapping: Option<map<string, string>>)

  const NoSettings := GtfsrSettings(None, None, None, None, None)

  /** A key of a Python dict: the built-in table has int keys, a mapping
      read from JSON has string keys. */
  datatype Key = IntKey(n: int) | StrKey(s: string)

  /** The built-in occupancy table, keyed by the OccupancyStatus number. */
  function BuiltInOccupancies(): (t: map<Key, string>)
    ensures forall n: nat :: n <= 8 ==> IntKey(n) in t && Some(t[IntKey(n)]) == OccupancyName(n)
    ensures forall k :: k in t ==> k.IntKey? && 0 <= k.n <= 8
  {
    map[IntKey(0) := "Empty", IntKey(1) := "Many seats available", IntKey(2) := "Few seats available",
        IntKey(3) := "Standing room only", IntKey(4) := "Crushed standing room only", IntKey(5) := "Full",
        IntKey(6) := "Not accepting passengers", IntKey(7) := "No data available", IntKey(8) := "Not boardable"]
  }

  /** A mapping as it comes out of JSON: string keys only. */
  function FromJson(m: map<string, string>): (t: map<Key, string>)
    ensures forall k :: k in t ==> k.StrKey? && k.s in m && t[k] == m[k.s]
    ensures forall s :: s in m ==> StrKey(s) in t
  {
    map s | s in m :: StrKey(s) := m[s]
  }

  /** What `do_source` settles. */
  datatype Config = Config(zone: string, vehicleCodeScheme: string, occupancies: map<Key, string>)

  /** `do_source`: the `gtfsr` settings (None when the source has no
      settings or no such key) give the time zone, "UTC" by default; the
      vehicle code scheme, the source name unless the key is present; and
      the occupancy mapping, the built-in table unless given. */
  function DoSource(sourceName: string, gtfsr: Option<GtfsrSettings>): (c: Config)
    ensures var g := gtfsr.GetOr(NoSettings);
            (g.timezone.None? ==> c.zone == "UTC") && (g.timezone.Some? ==> c.zone == g.timezone.value)
    ensures var g := gtfsr.GetOr(NoSettings);
            (g.vehicleCodeScheme.None? ==> c.vehicleCodeScheme == sourceName) &&
            (g.vehicleCodeScheme.Some? ==> c.vehicleCodeScheme == g.vehicleCodeScheme.value)
    ensures var g := gtfsr.GetOr(NoSettings);
            (g.occupancyMapping.None? ==> c.occupancies == BuiltInOccupancies()) &&
            (g.occupancyMapping.Some? ==> c.occupancies == FromJson(g.occupancyMapping.value))
  {
    var g := gtfsr.GetOr(NoSettings);
    Config(
      g.timezone.GetOr("UTC"),
      g.vehicleCodeScheme.GetOr(sourceName),
      if g.occupancyMapping.Some? then FromJson(g.occupancyMapping.value) else BuiltInOccupancies())
  }

  /** Without settings every default holds. */
  lemma Defaults(sourceName: string)
    ensures DoSource(sourceName, None) == Config("UTC", sourceName, BuiltInOccupancies())
  {
  }

  /** The headers with "x-api-key" set to the API key when it is truthy;
      every other header kept. */
  function WithApiKey(headers: map<string, string>, apiKey: Option<string>): (h: map<string, string>)
    ensures IsTruthy(apiKey) ==> "x-api-key" in h && h["x-api-key"] == apiKey.value
    ensures !IsTruthy(apiKey) ==> h == headers
    ensures forall k :: k != "x-api-key" ==> (k in h <==> k in headers)
    ensures forall k :: k in headers && k != "x-api-key" ==> h[k] == headers[k]
  {
    if IsTruthy(apiKey) then headers["x-api-key" := apiKey.value] else headers
  }

  /** Setting the key again changes nothing. */
  lemma WithApiKeyIdempotent(headers: map<string, string>, apiKey: Option<string>)
    ensures WithApiKey(WithApiKey(headers, apiKey), apiKey) == WithApiKey(headers, apiKey)
  {
  }

  /** The importer's hold on its `gtfsr` settings, as far as `get_items`
      touches them: the `headers` dict (None when the key is absent) and
      the API key. */
  class FeedSettings {
    var headers: Option<map<string, string>>
    const apiKey: Option<string>

    constructor (g: GtfsrSettings)
      ensures headers == g.headers && apiKey == g.apiKey
    {
      headers := g.headers;
      apiKey := g.apiKey;
    }

    /** `get_items`' headers: the settings' own dict with the API key
        written into it, so the key stays in the settings for every later
        poll; without a `headers` key a fresh empty dict is used and the
        settings are left as they were. */
    method RequestHeaders() returns (h: map<string, string>)
      modifies this
      ensures h == WithApiKey(old(headers).GetOr(map[]), apiKey)
      ensures old(headers).Some? ==> headers == Some(h)
      ensures old(headers).None? ==> headers.None?
    {
      var current := if headers.Some? then headers.value else map[];
      if IsTruthy(apiKey) {
        current := current["x-api-key" := apiKey.value];
      }
      if headers.Some? {
        headers := Some(current);
      }
      h := current;
    }
  }

  /** Polling twice sends the same headers. */
  method PollTwice(s: FeedSettings) returns (first: map<string, string>, second: map<string, string>)
    modifies s
    ensures first == second
  {
    first := s.RequestHeaders();
    second := s.RequestHeaders();
    WithApiKeyIdempotent(old(s.headers).GetOr(map[]), s.apiKey);
  }

  /** `get_journey` without the vehicle's writes: a failure when the start
      date or time does not parse (worked out before anything else, so
      even a journey the vehicle already has fails then); the latest
      journey when its code is the trip id; else the journey at the
      scheduled start, where the fallback always narrows by start and
      direction and the calendars always decide between several trips. */
  function Decide(sc: Schedule, zone: string, source: string, item: FeedItem, latest: Option<Journey>,
                  active: (Date, seq<nat>) -> set<nat>): (d: Decision)
    requires Valid(sc)
    ensures d.Failed? <==> ScheduledStart(item.trip.startDate, item.trip.startTime, zone).None?
    ensures d.Reuse? <==>
              ScheduledStart(item.trip.startDate, item.trip.startTime, zone).Some? &&
              latest.Some? && latest.value.code == item.trip.tripId
    ensures d.Reuse? ==> d.journey == latest.value
    ensures d.Fresh? ==>
              d.journey.code == item.trip.tripId &&
              d.journey.datetime == ScheduledStart(item.trip.startDate, item.trip.startTime, zone)
    ensures d.Fresh? && d.journey.trip.Some? ==>
              d.journey.trip.value < |sc.trips| &&
              d.journey.service == TripService(sc, d.journey.trip.value) &&
              d.journey.destination == sc.trips[d.journey.trip.value].headsign &&
              d.tripOperator == sc.trips[d.journey.trip.value].operator
    ensures d.Fresh? && d.journey.trip.Some? && UsesFallback(sc, source, item.trip) ==>
              ParseDuration(item.trip.startTime).Some? &&
              sc.trips[d.journey.trip.value].start == ParseDuration(item.trip.startTime).value &&
              sc.trips[d.journey.trip.value].inbound == (item.trip.directionId == 1)
  {
    var td := item.trip;
    match ScheduledStart(td.startDate, td.startTime, zone)
    case None => Failed
    case Some(start) =>
      if latest.Some? && latest.value.code == td.tripId then Reuse(latest.value)
      else
        var m := Cascade(sc, source, td, Some(ParseDuration(td.startTime).value), ParseDate(td.startDate), active);
        Fresh(BuildJourney(sc, td.tripId, start, m), TripOperator(sc, m))
  }

  /** A trip placed at noon on 9999-12-31 fails, even when the vehicle
      already has the journey: the start overflows `datetime` before the
      latest journey is looked at. */
  lemma LastDayNoonFails(sc: Schedule, zone: string, source: string, item: FeedItem, latest: Option<Journey>,
                         active: (Date, seq<nat>) -> set<nat>)
    requires Valid(sc)
    requires item.trip.startDate == "99991231" && item.trip.startTime == "12:00:00"
    ensures Decide(sc, zone, source, item, latest, active).Failed?
  {
    LastDayNoonOverflows(zone);
  }

  /** The decision of `get_journey`, step by step: the start is parsed
      before the latest journey is looked at. */
  method DecideJourney(sc: Schedule, zone: string, source: string, item: FeedItem, latest: Option<Journey>,
                       active: (Date, seq<nat>) -> set<nat>) returns (d: Decision)
    requires Valid(sc)
    ensures d == Decide(sc, zone, source, item, latest, active)
  {
    var td := item.trip;
    var start := ScheduledStart(td.startDate, td.startTime, zone);
    if start.None? {
      return Failed;
    }
    if latest.Some? && latest.value.code == td.tripId {
      return Reuse(latest.value);
    }
    var service, trip := MatchTrip(sc, source, td, Some(ParseDuration(td.startTime).value), ParseDate(td.startDate), active);
    var m := Match(service, trip);
    d := Fresh(BuildJourney(sc, td.tripId, start.value, m), TripOperator(sc, m));
  }

  /** `get_journey`: the decision carried out on the vehicle, as in the
      Translink importer. */
  method GetJourney(sc: Schedule, zone: string, source: string, item: FeedItem, vehicle: LiveVehicle,
                    active: (Date, seq<nat>) -> set<nat>) returns (journey: Option<Journey>)
    requires Valid(sc)
    modifies vehicle
    ensures match Decide(sc, zone, source, item, old(vehicle.latestJourney), active)
            case Reuse(j) => journey == Some(j) && unchanged(vehicle)
            case Failed => journey.None? && unchanged(vehicle)
            case Fresh(j, op) =>
              journey == Some(j) &&
              vehicle.operatorId == AdoptOperator(old(vehicle.operatorId), op) &&
              vehicle.latestJourney == old(vehicle.latestJourney) &&
              vehicle.latestJourneyData == Some(item)
  {
    var d := DecideJourney(sc, zone, source, item, vehicle.latestJourney, active);
    journey := ApplyDecision(vehicle, d, item);
  }

  /** `occupancy_mapping.get(status or None)` as written: status 0 becomes
      None and the table is looked up with the int status. */
  function OccupancyAsWritten(table: map<Key, string>, status: nat): (r: Option<string>)
    ensures r.Some? ==> status != 0 && IntKey(status) in table && r.value == table[IntKey(status)]
  {
    if status != 0 && IntKey(status) in table then Some(table[IntKey(status)]) else None
  }

  /** A mapping from the settings is never hit: its JSON keys are strings
      and the status is an int. */
  lemma JsonMappingNeverMatches(m: map<string, string>, status: nat)
    ensures OccupancyAsWritten(FromJson(m), status).None?
  {
  }

  /** The documented mapping {"0": "Empty", "1": "Few seats"} records no
      occupancy for status 1. */
  lemma DocumentedMappingIgnored(m: map<string, string>)
    requires m == map["0" := "Empty", "1" := "Few seats"]
    ensures OccupancyAsWritten(DoSource("feed", Some(GtfsrSettings(None, None, None, None, Some(m)))).occupancies, 1).None?
  {
    JsonMappingNeverMatches(m, 1);
  }

  /** The lookup evidently intended: by the int status in the built-in
      table and by its decimal string in a mapping from the settings;
      status 0 still records nothing. */
  function Occupancy(table: map<Key, string>, status: nat): (r: Option<string>)
    ensures status == 0 ==> r.None?
    ensures status != 0 && IntKey(status) in table ==> r == Some(table[IntKey(status)])
    ensures status != 0 && IntKey(status) !in table && StrKey(DecimalString(status)) in table ==>
              r == Some(table[StrKey(DecimalString(status))])
    ensures r.Some? ==> IntKey(status) in table || StrKey(DecimalString(status)) in table
  {
    if status == 0 then None
    else if IntKey(status) in table then Some(table[IntKey(status)])
    else if StrKey(DecimalString(status)) in table then Some(table[StrKey(DecimalString(status))])
    else None
  }

  /** On the built-in table the intended lookup is the written one. */
  lemma BuiltInUnchanged(status: nat)
    ensures Occupancy(BuiltInOccupancies(), status) == OccupancyAsWritten(BuiltInOccupancies(), status)
  {
    var t := BuiltInOccupancies();
    if status != 0 && IntKey(status) !in t {
      assert StrKey(DecimalString(status)) !in t;
    }
  }

  /** A mapping from the settings is used by the intended lookup: every
      non-zero status whose decimal string is a key gets its name. */
  lemma JsonMappingUsed(m: map<string, string>, status: nat)
    requires status != 0 && DecimalString(status) in m
    ensures Occupancy(FromJson(m), status) == Some(m[DecimalString(status)])
  {
  }

  /** `create_vehicle_location`, with the intended occupancy lookup. */
  function CreateVehicleLocation(c: Config, item: FeedItem): (loc: Location)
    ensures loc.heading == Heading(item.bearing)
    ensures loc.longitude == item.longitude && loc.latitude == item.latitude
    ensures loc.occupancy == Occupancy(c.occupancies, item.occupancyStatus)
  {
    Location(Heading(item.bearing), item.longitude, item.latitude, Occupancy(c.occupancies, item.occupancyStatus))
  }
}
