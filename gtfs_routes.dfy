/** Agencies and routes of a static GTFS feed, as
    bustimes/management/commands/import_gtfs_worldwide.py handles them: the
    `operators` dict of `handle_zipfile`, `handle_route` (line names,
    operator, the service it is matched to, the route it upserts) and the
    retirement of routes and services the run did not see. The database is
    in memory: services and routes are sequences whose positions are their
    ids, trips a map from id to trip. */
module GtfsRoutes {
  import opened Wrappers
  import opened Text
  import opened Tables
  import opened GtfsSettings

  /** A row of agency.txt. */
  datatype AgencyRow = AgencyRow(agencyId: Option<string>, agencyName: string)

  /** The key `self.operators` files an agency under: its id as in the
      feed, or its name. */
  function AgencyKey(a: AgencyRow): string {
    if a.agencyId.Some? then a.agencyId.value else a.agencyName
  }

  /** The keys the agencies are filed under. */
  function AgencyKeys(agencies: seq<AgencyRow>): set<string> {
    set j | 0 <= j < |agencies| :: AgencyKey(agencies[j])
  }

  /** One more agency adds its key. */
  lemma AgencyKeysSnoc(agencies: seq<AgencyRow>)
    requires agencies != []
    ensures AgencyKeys(agencies) == AgencyKeys(agencies[..|agencies| - 1]) + {AgencyKey(agencies[|agencies| - 1])}
  {
    var init := agencies[..|agencies| - 1];
    forall k | k in AgencyKeys(init)
      ensures k in AgencyKeys(agencies)
    {
      var j :| 0 <= j < |init| && AgencyKey(init[j]) == k;
      assert agencies[j] == init[j];
    }
    forall k | k in AgencyKeys(agencies)
      ensures k in AgencyKeys(init) + {AgencyKey(agencies[|agencies| - 1])}
    {
      var j :| 0 <= j < |agencies| && AgencyKey(agencies[j]) == k;
      if j < |init| {
        assert agencies[j] == init[j];
      }
    }
  }

  /** `self.operators` after the agency loop: each agency's operator (the
      parameter `operatorFor`, which finds or creates it) under its key, a
      later agency with the same key replacing an earlier one; empty when
      agencies are not handled. */
  function OperatorsOf(c: Config, agencies: seq<AgencyRow>, operatorFor: AgencyRow -> nat): (d: Dict<nat>)
    ensures !c.handleAgencies ==> d == Dict([], map[])
    ensures c.handleAgencies ==> d.entries.Keys == AgencyKeys(agencies)
  {
    if !c.handleAgencies || agencies == [] then Dict([], map[])
    else
      var init := agencies[..|agencies| - 1];
      var last := agencies[|agencies| - 1];
      var d := OperatorsOf(c, init, operatorFor);
      AgencyKeysSnoc(agencies);
      Put(d, AgencyKey(last), operatorFor(last))
  }

  /** Each key holds the operator of the last agency filed under it. */
  lemma {:induction false} LastAgencyWins(c: Config, agencies: seq<AgencyRow>, operatorFor: AgencyRow -> nat, j: nat)
    requires c.handleAgencies && j < |agencies|
    requires forall l :: j < l < |agencies| ==> AgencyKey(agencies[l]) != AgencyKey(agencies[j])
    ensures AgencyKey(agencies[j]) in OperatorsOf(c, agencies, operatorFor).entries
    ensures OperatorsOf(c, agencies, operatorFor).entries[AgencyKey(agencies[j])] == operatorFor(agencies[j])
  {
    if j < |agencies| - 1 {
      var init := agencies[..|agencies| - 1];
      assert init[j] == agencies[j];
      assert forall l :: j < l < |init| ==> init[l] == agencies[l];
      LastAgencyWins(c, init, operatorFor, j);
    }
  }

  /** The agency loop of `handle_zipfile`. */
  method LoadAgencies(c: Config, agencies: seq<AgencyRow>, operatorFor: AgencyRow -> nat) returns (d: Dict<nat>)
    ensures d == OperatorsOf(c, agencies, operatorFor)
  {
    d := Dict([], map[]);
    if !c.handleAgencies {
      return;
    }
    var i := 0;
    while i < |agencies|
      invariant 0 <= i <= |agencies|
      invariant d == OperatorsOf(c, agencies[..i], operatorFor)
    {
      assert agencies[..i + 1][..i] == agencies[..i];
      d := Put(d, AgencyKey(agencies[i]), operatorFor(agencies[i]));
      i := i + 1;
    }
    assert agencies[..i] == agencies;
  }

  /** `self.operators` is well formed. */
  lemma {:induction false} OperatorsWellFormed(c: Config, agencies: seq<AgencyRow>, operatorFor: AgencyRow -> nat)
    ensures DictWellFormed(OperatorsOf(c, agencies, operatorFor))
  {
    if c.handleAgencies && agencies != [] {
      var init := agencies[..|agencies| - 1];
      var last := agencies[|agencies| - 1];
      OperatorsWellFormed(c, init, operatorFor);
      PutWellFormed(OperatorsOf(c, init, operatorFor), AgencyKey(last), operatorFor(last));
    }
  }

  /** `route_short_name` and `route_long_name`, None where pandas gives a
      non-string (a missing value). */
  datatype RouteLine = RouteLine(routeId: string, shortName: Option<string>, longName: Option<string>, agencyId: Option<string>)

  /** The line name and description of a route: the short and long names
      ("" for non-strings); an empty line name takes a description without
      spaces, which is then dropped when shorter than 5 characters. */
  function LineNames(shortName: Option<string>, longName: Option<string>): (r: (string, string))
    ensures var ln, d := shortName.GetOr(""), longName.GetOr("");
            (ln != "" ==> r == (ln, d)) &&
            (ln == "" && ' ' in d ==> r == ("", d)) &&
            (ln == "" && ' ' !in d ==> r.0 == d && (r.1 == "" <==> |d| < 5) && (r.1 != "" ==> r.1 == d))
    ensures r.0 == "" ==> shortName.GetOr("") == "" && (longName.GetOr("") == "" || ' ' in longName.GetOr(""))
    ensures r.1 == "" || r.1 == longName.GetOr("")
  {
    var lineName := shortName.GetOr("");
    var description := longName.GetOr("");
    if lineName == "" && ' ' !in description then
      (description, if |description| < 5 then "" else description)
    else (lineName, description)
  }

  /** The operator of a route: its agency id (with the agency prefix in
      front when both are non-empty) looked up in `operators`; without an
      agency id, the only agency's key when there is exactly one, else the
      configured default operator name. */
  function RouteOperator(c: Config, agencyId: Option<string>, ops: Dict<nat>): (r: Option<nat>)
    ensures IsTruthy(agencyId) ==>
              var key := Prefixed(c.agencyPrefix, agencyId.value);
              r == (if key in ops.entries then Some(ops.entries[key]) else None)
    ensures !IsTruthy(agencyId) && |ops.keys| == 1 ==>
              r == (if ops.keys[0] != "" && ops.keys[0] in ops.entries then Some(ops.entries[ops.keys[0]]) else None)
    ensures !IsTruthy(agencyId) && |ops.keys| != 1 && c.defaultOperator != "" ==>
              r == (if c.defaultOperator in ops.entries then Some(ops.entries[c.defaultOperator]) else None)
    ensures !IsTruthy(agencyId) && |ops.keys| != 1 && c.defaultOperator == "" ==> r.None?
  {
    var id := if c.agencyPrefix != "" && IsTruthy(agencyId) then Some(c.agencyPrefix + agencyId.value) else agencyId;
    var id' :=
      if !IsTruthy(id) then
        (if |ops.keys| == 1 then Some(ops.keys[0]) else if c.defaultOperator != "" then Some(c.defaultOperator) else id)
      else id;
    if IsTruthy(id') && id'.value in ops.entries then Some(ops.entries[id'.value]) else None
  }

  /** With an agency prefix, a route naming its agency finds no operator:
      `operators` is keyed by the feed's own agency ids, the lookup by the
      prefixed one. */
  lemma PrefixedAgencyMissesOperator(c: Config, agencies: seq<AgencyRow>, operatorFor: AgencyRow -> nat, agencyId: string)
    requires c.agencyPrefix != "" && agencyId != ""
    requires forall j :: 0 <= j < |agencies| ==> AgencyKey(agencies[j]) != c.agencyPrefix + agencyId
    ensures RouteOperator(c, Some(agencyId), OperatorsOf(c, agencies, operatorFor)).None?
  {
  }

  /** Without an agency id, a feed with one agency (filed under a
      non-empty key) gives every route that agency's operator. */
  lemma SingleAgency(c: Config, a: AgencyRow, operatorFor: AgencyRow -> nat, agencyId: Option<string>)
    requires c.handleAgencies && !IsTruthy(agencyId) && AgencyKey(a) != ""
    ensures RouteOperator(c, agencyId, OperatorsOf(c, [a], operatorFor)) == Some(operatorFor(a))
  {
    assert [a][..0] == [];
    assert OperatorsOf(c, [a], operatorFor) == Put(Dict([], map[]), AgencyKey(a), operatorFor(a));
  }

  /** A Service: source, operators, service code, line name, description,
      whether current. */
  datatype ServiceRec = ServiceRec(
    source: nat,
    operators: set<nat>,
    serviceCode: string,
    lineName: string,
    description: string,
    current: bool)

  /** A Route: source, code, line name, description, service. */
  datatype RouteRec = RouteRec(source: nat, code: string, lineName: string, description: string, service: Option<nat>)

  /** A Trip: route, calendar, direction, headsign, ticket machine code
      (the GTFS trip id), block, vehicle journey code, operator, start and
      end (the raw stop_times.txt texts) and destination (a stop code). */
  datatype TripRec = TripRec(
    route: nat,
    calendar: nat,
    inbound: bool,
    headsign: string,
    ticketCode: string,
    block: string,
    vehicleJourneyCode: string,
    operator: Option<nat>,
    start: string,
    end: string,
    destination: Option<string>)

  datatype Db = Db(services: seq<ServiceRec>, routes: seq<RouteRec>, trips: map<nat, TripRec>)

  /** `filter(operator=operator)`: services of that operator, or services
      with no operator at all for None. */
  predicate OfOperator(s: ServiceRec, operator: Option<nat>) {
    if operator.Some? then operator.value in s.operators else s.operators == {}
  }

  /** Some route of any source with this code belongs to service `s`. */
  predicate HasRoute(db: Db, s: nat, code: string) {
    exists r | 0 <= r < |db.routes| :: db.routes[r].code == code && db.routes[r].service == Some(s)
  }

  /** The OR-combined condition of `handle_route`: a route with this code,
      or this service code, or the same line name ignoring case when the
      line name is non-empty and not "rail" or "InterCity", or else the same
      non-empty description. */
  predicate ServiceMatches(db: Db, s: nat, routeId: string, lineName: string, description: string, operator: Option<nat>)
    requires s < |db.services|
  {
    var svc := db.services[s];
    OfOperator(svc, operator) &&
    (HasRoute(db, s, routeId) ||
     svc.serviceCode == routeId ||
     (if lineName != "" && lineName != "rail" && lineName != "InterCity" then Upper(svc.lineName) == Upper(lineName)
      else description != "" && svc.description == description))
  }

  /** `services.filter(q).order_by("id").first()`. */
  function MatchService(db: Db, routeId: string, lineName: string, description: string, operator: Option<nat>)
    : (m: Option<nat>)
    ensures m.Some? ==> m.value < |db.services| && ServiceMatches(db, m.value, routeId, lineName, description, operator)
    ensures m.Some? ==> forall s :: 0 <= s < m.value ==> !ServiceMatches(db, s, routeId, lineName, description, operator)
    ensures m.None? <==> forall s :: 0 <= s < |db.services| ==> !ServiceMatches(db, s, routeId, lineName, description, operator)
  {
    var p := (s: nat) => s < |db.services| && ServiceMatches(db, s, routeId, lineName, description, operator);
    var r := Filter(|db.services|, p);
    assert forall s :: 0 <= s < |db.services| ==> (p(s) <==> ServiceMatches(db, s, routeId, lineName, description, operator));
    if |r| > 0 then Some(r[0]) else None
  }

  /** A service's fields once `handle_route` has saved it: operators set
      to the operator on the service's first sighting in the run and added
      to afterwards (untouched without an operator). */
  function SavedService(old_: ServiceRec, source: nat, routeId: string, lineName: string, description: string,
                        operator: Option<nat>, seenBefore: bool): (s: ServiceRec)
    ensures s.source == source && s.current && s.serviceCode == routeId
    ensures s.lineName == lineName && s.description == description
    ensures operator.None? ==> s.operators == old_.operators
    ensures operator.Some? && !seenBefore ==> s.operators == {operator.value}
    ensures operator.Some? && seenBefore ==> s.operators == old_.operators + {operator.value}
  {
    var ops :=
      if operator.None? then old_.operators
      else if seenBefore then old_.operators + {operator.value}
      else {operator.value};
    ServiceRec(source, ops, routeId, lineName, description, true)
  }

  /** The first route of `source` with this code. */
  function FindRoute(routes: seq<RouteRec>, source: nat, code: string): (r: Option<nat>)
    ensures r.Some? ==> r.value < |routes| && routes[r.value].source == source && routes[r.value].code == code
    ensures r.None? <==> forall k :: 0 <= k < |routes| ==> !(routes[k].source == source && routes[k].code == code)
  {
    var p := (k: nat) => k < |routes| && routes[k].source == source && routes[k].code == code;
    var found := Filter(|routes|, p);
    assert forall k :: 0 <= k < |routes| ==> (p(k) <==> routes[k].source == source && routes[k].code == code);
    if |found| > 0 then Some(found[0]) else None
  }

  /** No two routes share source and code, so `update_or_create` never
      finds two. */
  predicate RoutesUnique(db: Db) {
    forall i, j :: 0 <= i < j < |db.routes| ==>
      !(db.routes[i].source == db.routes[j].source && db.routes[i].code == db.routes[j].code)
  }

  /** Every trip belongs to an existing route. */
  predicate TripsValid(db: Db) {
    forall t :: t in db.trips ==> db.trips[t].route < |db.routes|
  }

  /** The trips of every route but `r`. */
  function WithoutTripsOf(trips: map<nat, TripRec>, r: nat): (t: map<nat, TripRec>)
    ensures forall k :: k in t <==> k in trips && trips[k].route != r
    ensures forall k :: k in t ==> t[k] == trips[k]
  {
    map k | k in trips && trips[k].route != r :: trips[k]
  }

  /** What `handle_zipfile` keeps while routes are handled: the database,
      the ids of services seen in this run (`self.services`), and the route
      and operator of each route id (`self.routes`, `self.route_operators`). */
  datatype RunState = RunState(db: Db, seen: set<nat>, runRoutes: map<string, nat>, routeOperators: map<string, Option<nat>>)

  /** `handle_route`: the matched service (or a new one) saved with the
      route's names as current; the route upserted by source and code,
      its earlier trips deleted when it already existed. */
  function AfterRoute(st: RunState, c: Config, source: nat, ops: Dict<nat>, line: RouteLine): (r: RunState)
    ensures line.routeId in r.runRoutes && r.runRoutes[line.routeId] < |r.db.routes|
    ensures r.db.routes[r.runRoutes[line.routeId]].service.Some?
    ensures r.seen == st.seen + {r.db.routes[r.runRoutes[line.routeId]].service.value}
    ensures r.runRoutes == st.runRoutes[line.routeId := r.runRoutes[line.routeId]]
    ensures r.routeOperators == st.routeOperators[line.routeId := RouteOperator(c, line.agencyId, ops)]
    ensures var sid := r.db.routes[r.runRoutes[line.routeId]].service.value;
            var names := LineNames(line.shortName, line.longName);
            var operator := RouteOperator(c, line.agencyId, ops);
            var before := if sid < |st.db.services| then st.db.services[sid].operators else {};
            sid < |r.db.services| && r.db.services[sid].source == source && r.db.services[sid].current &&
            r.db.services[sid].serviceCode == line.routeId &&
            r.db.services[sid].lineName == names.0 && r.db.services[sid].description == names.1 &&
            (operator.None? ==> r.db.services[sid].operators == before) &&
            (operator.Some? && sid !in st.seen ==> r.db.services[sid].operators == {operator.value}) &&
            (operator.Some? && sid in st.seen ==> r.db.services[sid].operators == before + {operator.value})
  {
    var (lineName, description) := LineNames(line.shortName, line.longName);
    var operator := RouteOperator(c, line.agencyId, ops);
    var services := st.db.services;
    var matched := MatchService(st.db, line.routeId, lineName, description, operator);
    var sid := if matched.Some? then matched.value else |services|;
    var base := if matched.Some? then services[sid] else ServiceRec(source, {}, "", "", "", false);
    var saved := SavedService(base, source, line.routeId, lineName, description, operator, sid in st.seen);
    var services' := if matched.Some? then services[sid := saved] else services + [saved];
    var route := RouteRec(source, line.routeId, lineName, description, Some(sid));
    var existing := FindRoute(st.db.routes, source, line.routeId);
    var rid := if existing.Some? then existing.value else |st.db.routes|;
    var routes' := if existing.Some? then st.db.routes[rid := route] else st.db.routes + [route];
    var trips' := if existing.Some? then WithoutTripsOf(st.db.trips, rid) else st.db.trips;
    RunState(
      Db(services', routes', trips'),
      st.seen + {sid},
      st.runRoutes[line.routeId := rid],
      st.routeOperators[line.routeId := operator])
  }

  /** After `handle_route` the route id has exactly one route of the
      source, the one the run remembers; it holds the route's names and
      service, and no trips (earlier imports' trips are gone); its service
      is current and carries the route id as service code; routes stay
      unique. */
  lemma RouteUpserted(st: RunState, c: Config, source: nat, ops: Dict<nat>, line: RouteLine)
    requires RoutesUnique(st.db) && TripsValid(st.db)
    ensures var r := AfterRoute(st, c, source, ops, line);
            var rid := r.runRoutes[line.routeId];
            var names := LineNames(line.shortName, line.longName);
            RoutesUnique(r.db) && TripsValid(r.db) &&
            r.db.routes[rid] == RouteRec(source, line.routeId, names.0, names.1, r.db.routes[rid].service) &&
            (forall k :: 0 <= k < |r.db.routes| && r.db.routes[k].source == source && r.db.routes[k].code == line.routeId ==>
               k == rid) &&
            (forall t :: t in r.db.trips ==> r.db.trips[t].route != rid)
    ensures var r := AfterRoute(st, c, source, ops, line);
            var sid := r.db.routes[r.runRoutes[line.routeId]].service.value;
            sid < |r.db.services| && r.db.services[sid].current && r.db.services[sid].serviceCode == line.routeId
  {
    var r := AfterRoute(st, c, source, ops, line);
    var existing := FindRoute(st.db.routes, source, line.routeId);
    var rid := r.runRoutes[line.routeId];
    if existing.Some? {
      assert rid == existing.value;
      forall t | t in r.db.trips ensures r.db.trips[t].route != rid {
      }
    } else {
      assert rid == |st.db.routes|;
      assert r.db.trips == st.db.trips;
    }
  }

  /** A route id handled before in this run keeps its route: handling it
      again updates the same row and leaves no trips on it. */
  lemma ReimportSameRoute(st: RunState, c: Config, source: nat, ops: Dict<nat>, line: RouteLine)
    requires RoutesUnique(st.db)
    requires line.routeId in st.runRoutes && st.runRoutes[line.routeId] < |st.db.routes|
    requires st.db.routes[st.runRoutes[line.routeId]].source == source
    requires st.db.routes[st.runRoutes[line.routeId]].code == line.routeId
    ensures var r := AfterRoute(st, c, source, ops, line);
            r.runRoutes[line.routeId] == st.runRoutes[line.routeId] && |r.db.routes| == |st.db.routes| &&
            forall t :: t in r.db.trips ==> r.db.trips[t].route != st.runRoutes[line.routeId]
  {
    var old_ := st.runRoutes[line.routeId];
    var existing := FindRoute(st.db.routes, source, line.routeId);
    assert existing.Some?;
    assert existing.value == old_;
  }

  /** Handling a route touches only its service, its route and that
      route's trips. */
  lemma AfterRouteFrame(st: RunState, c: Config, source: nat, ops: Dict<nat>, line: RouteLine)
    ensures var r := AfterRoute(st, c, source, ops, line);
            var rid := r.runRoutes[line.routeId];
            var sid := r.db.routes[rid].service.value;
            |st.db.services| <= |r.db.services| <= |st.db.services| + 1 &&
            |st.db.routes| <= |r.db.routes| <= |st.db.routes| + 1 &&
            (forall k :: 0 <= k < |st.db.services| && k != sid ==> r.db.services[k] == st.db.services[k]) &&
            (forall k :: 0 <= k < |st.db.routes| && k != rid ==> r.db.routes[k] == st.db.routes[k]) &&
            (forall t :: t in st.db.trips && st.db.trips[t].route != rid ==> t in r.db.trips && r.db.trips[t] == st.db.trips[t])
  {
  }

  /** The service `handle_route` picks is the lowest-numbered matching one
      of the route's operator; only when none matches is a service
      created. */
  lemma ServiceChoice(st: RunState, c: Config, source: nat, ops: Dict<nat>, line: RouteLine)
    ensures var r := AfterRoute(st, c, source, ops, line);
            var sid := r.db.routes[r.runRoutes[line.routeId]].service.value;
            var names := LineNames(line.shortName, line.longName);
            var operator := RouteOperator(c, line.agencyId, ops);
            (sid < |st.db.services| ==>
               ServiceMatches(st.db, sid, line.routeId, names.0, names.1, operator) &&
               forall s :: 0 <= s < sid ==> !ServiceMatches(st.db, s, line.routeId, names.0, names.1, operator)) &&
            (sid == |st.db.services| <==>
               forall s :: 0 <= s < |st.db.services| ==> !ServiceMatches(st.db, s, line.routeId, names.0, names.1, operator))
  {
  }

  /** The ids of the routes this run handled. */
  function RunRouteIds(runRoutes: map<string, nat>): set<nat> {
    set k | k in runRoutes :: runRoutes[k]
  }

  /** Some route handled in this run belongs to service `s`. */
  predicate KeptByRun(db: Db, runRoutes: map<string, nat>, s: nat) {
    exists r :: r in RunRouteIds(runRoutes) && r < |db.routes| && db.routes[r].service == Some(s)
  }

  /** The end of the run: the source's routes this run did not handle lose
      their service, and the source's current services without a route of
      this run stop being current. */
  function Retired(db: Db, source: nat, runRoutes: map<string, nat>): (r: Db)
    ensures |r.services| == |db.services| && |r.routes| == |db.routes| && r.trips == db.trips
    ensures forall s :: 0 <= s < |db.services| ==>
              if db.services[s].source == source && db.services[s].current && !KeptByRun(db, runRoutes, s)
              then r.services[s] == db.services[s].(current := false)
              else r.services[s] == db.services[s]
    ensures forall k :: 0 <= k < |db.routes| ==>
              if db.routes[k].source == source && k !in RunRouteIds(runRoutes)
              then r.routes[k] == db.routes[k].(service := None)
              else r.routes[k] == db.routes[k]
  {
    var runIds := RunRouteIds(runRoutes);
    var routes := seq(|db.routes|, k requires 0 <= k < |db.routes| =>
      if db.routes[k].source == source && k !in runIds then db.routes[k].(service := None) else db.routes[k]);
    var services := seq(|db.services|, s requires 0 <= s < |db.services| =>
      if db.services[s].source == source && db.services[s].current && !KeptByRun(db, runRoutes, s)
      then db.services[s].(current := false) else db.services[s]);
    Db(services, routes, db.trips)
  }

  /** After retirement every current service of the source has a route of
      this run, every route of the source outside the run has no service,
      and other sources' services and routes, and the run's routes, are as
      they were. */
  lemma RetireKeepsRun(db: Db, source: nat, runRoutes: map<string, nat>)
    ensures var r := Retired(db, source, runRoutes);
            forall s :: 0 <= s < |r.services| && r.services[s].source == source && r.services[s].current ==>
              KeptByRun(r, runRoutes, s)
    ensures var r := Retired(db, source, runRoutes);
            forall k :: 0 <= k < |r.routes| && r.routes[k].source == source && k !in RunRouteIds(runRoutes) ==>
              r.routes[k].service.None?
    ensures var r := Retired(db, source, runRoutes);
            (forall s :: 0 <= s < |r.services| && db.services[s].source != source ==> r.services[s] == db.services[s]) &&
            (forall k :: 0 <= k < |r.routes| && (db.routes[k].source != source || k in RunRouteIds(runRoutes)) ==>
               r.routes[k] == db.routes[k])
    ensures var r := Retired(db, source, runRoutes);
            forall s :: 0 <= s < |r.services| && db.services[s].source == source &&
                        (KeptByRun(db, runRoutes, s) || !db.services[s].current) ==>
              r.services[s] == db.services[s]
    ensures var r := Retired(db, source, runRoutes);
            forall s :: 0 <= s < |r.services| && r.services[s] != db.services[s] ==>
              r.services[s] == db.services[s].(current := false) && db.services[s].current && !r.services[s].current
  {
    var r := Retired(db, source, runRoutes);
    forall s | 0 <= s < |r.services| && r.services[s].source == source && r.services[s].current
      ensures KeptByRun(r, runRoutes, s)
    {
      var k :| k in RunRouteIds(runRoutes) && k < |db.routes| && db.routes[k].service == Some(s);
      assert r.routes[k] == db.routes[k];
    }
  }

  /** The run of `handle_zipfile` over the routes of a feed, holding what
      it keeps between routes. */
  class GtfsRun {
    var db: Db
    var seen: set<nat>
    var runRoutes: map<string, nat>
    var routeOperators: map<string, Option<nat>>
    const config: Config
    const source: nat
    const operators: Dict<nat>

    function State(): RunState
      reads this
    {
      RunState(db, seen, runRoutes, routeOperators)
    }

    constructor (db: Db, config: Config, source: nat, operators: Dict<nat>)
      ensures State() == RunState(db, {}, map[], map[])
      ensures this.config == config && this.source == source && this.operators == operators
    {
      this.db := db;
      seen := {};
      runRoutes := map[];
      routeOperators := map[];
      this.config := config;
      this.source := source;
      this.operators := operators;
    }

    /** `handle_route`, step by step. */
    method HandleRoute(line: RouteLine)
      modifies this
      ensures State() == AfterRoute(old(State()), config, source, operators, line)
    {
      var names := LineNames(line.shortName, line.longName);
      var lineName, description := names.0, names.1;
      var operator := RouteOperator(config, line.agencyId, operators);
      var matched := MatchService(db, line.routeId, lineName, description, operator);
      var sid: nat;
      var service: ServiceRec;
      if matched.Some? {
        sid := matched.value;
        service := db.services[sid];
      } else {
        sid := |db.services|;
        service := ServiceRec(source, {}, "", "", "", false);
      }
      service := SavedService(service, source, line.routeId, lineName, description, operator, sid in seen);
      var services := if matched.Some? then db.services[sid := service] else db.services + [service];
      seen := seen + {sid};
      var route := RouteRec(source, line.routeId, lineName, description, Some(sid));
      var existing := FindRoute(db.routes, source, line.routeId);
      var routes := db.routes;
      var trips := db.trips;
      var rid: nat;
      if existing.Some? {
        rid := existing.value;
        routes := routes[rid := route];
        trips := WithoutTripsOf(trips, rid);
      } else {
        rid := |routes|;
        routes := routes + [route];
      }
      db := Db(services, routes, trips);
      runRoutes := runRoutes[line.routeId := rid];
      routeOperators := routeOperators[line.routeId := operator];
    }

    /** The clean-up at the end of `handle_zipfile`. */
    method Retire()
      modifies this
      ensures db == Retired(old(db), source, runRoutes)
      ensures seen == old(seen) && runRoutes == old(runRoutes) && routeOperators == old(routeOperators)
    {
      db := Retired(db, source, runRoutes);
    }
  }
}
