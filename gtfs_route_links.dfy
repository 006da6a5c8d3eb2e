/** The route links `do_route_links` of
    bustimes/management/commands/import_gtfs_worldwide.py cuts from trip
    shapes: one link per (service, from stop, to stop), the first trip that
    reaches a pair deciding its geometry. The geometry library is a set of
    parameters: `project` (how far along a shape a stop lies), `substring`
    (the piece of a shape between two distances) and `isLine` (whether that
    piece is a LineString); shapes and pieces are opaque numbers. */
module GtfsRouteLinks {
  import opened Wrappers
  import opened GtfsSettings
  import opened GtfsTrips

  /** The geometry operations of shapely, as parameters. */
  datatype Geometry = Geometry(project: (nat, string) -> real, substring: (nat, real, real) -> nat, isLine: nat -> bool)

  /** A route link's key: service, from stop, to stop. */
  datatype LinkKey = LinkKey(service: nat, fromStop: string, toStop: string)

  /** A route link to write: the id of the stored link it updates, if any,
      and its geometry. */
  datatype Link = Link(id: Option<nat>, geometry: nat)

  /** A trip with its shape, as `get_trips(as_gdf=True)` gives it. */
  datatype ShapeTrip = ShapeTrip(tripId: string, routeId: string, shapeId: Option<string>, geometry: Option<nat>)

  /** `drop_duplicates("shape_id")`: the first trip of each shape id
      (trips without one count as one shape), in order. */
  function FirstPerShape(trips: seq<ShapeTrip>, seen: set<Option<string>>): (r: seq<ShapeTrip>)
    ensures forall j :: 0 <= j < |r| ==> r[j] in trips && r[j].shapeId !in seen
    ensures forall j, k :: 0 <= j < k < |r| ==> r[j].shapeId != r[k].shapeId
  {
    if trips == [] then []
    else if trips[0].shapeId in seen then FirstPerShape(trips[1..], seen)
    else [trips[0]] + FirstPerShape(trips[1..], seen + {trips[0].shapeId})
  }

  /** Every shape id of the trips (not already seen) keeps a trip. */
  lemma {:induction false} FirstPerShapeComplete(trips: seq<ShapeTrip>, seen: set<Option<string>>, j: nat)
    requires j < |trips| && trips[j].shapeId !in seen
    ensures exists k :: 0 <= k < |FirstPerShape(trips, seen)| && FirstPerShape(trips, seen)[k].shapeId == trips[j].shapeId
  {
    var r := FirstPerShape(trips, seen);
    if trips[0].shapeId in seen {
      assert trips[1..][j - 1] == trips[j];
      FirstPerShapeComplete(trips[1..], seen, j - 1);
    } else if trips[j].shapeId == trips[0].shapeId {
      assert r[0].shapeId == trips[j].shapeId;
    } else {
      var rest := FirstPerShape(trips[1..], seen + {trips[0].shapeId});
      assert trips[1..][j - 1] == trips[j];
      FirstPerShapeComplete(trips[1..], seen + {trips[0].shapeId}, j - 1);
      var k :| 0 <= k < |rest| && rest[k].shapeId == trips[j].shapeId;
      assert r[k + 1] == rest[k];
    }
  }

  /** Each position one further on. */
  function Shift(t: seq<nat>): (r: seq<nat>)
    ensures |r| == |t| && forall i :: 0 <= i < |t| ==> r[i] == t[i] + 1
  {
    seq(|t|, i requires 0 <= i < |t| => t[i] + 1)
  }

  /** The input positions of the trips `FirstPerShape` keeps, in
      increasing order. */
  function KeptPositions(trips: seq<ShapeTrip>, seen: set<Option<string>>): (idx: seq<nat>)
    ensures forall j :: 0 <= j < |idx| ==> idx[j] < |trips|
  {
    if trips == [] then []
    else
      var s0 := trips[0].shapeId;
      var tail := KeptPositions(trips[1..], if s0 in seen then seen else seen + {s0});
      if s0 in seen then Shift(tail) else [0] + Shift(tail)
  }

  /** The kept trips keep their input order. */
  lemma {:induction false} KeptInOrder(trips: seq<ShapeTrip>, seen: set<Option<string>>)
    ensures forall j, k :: 0 <= j < k < |KeptPositions(trips, seen)| ==>
              KeptPositions(trips, seen)[j] < KeptPositions(trips, seen)[k]
  {
    if trips != [] {
      var s0 := trips[0].shapeId;
      var seen' := if s0 in seen then seen else seen + {s0};
      KeptInOrder(trips[1..], seen');
      var tail := KeptPositions(trips[1..], seen');
      var idx := KeptPositions(trips, seen);
      assert idx == if s0 in seen then Shift(tail) else [0] + Shift(tail);
      if s0 in seen {
        forall j, k | 0 <= j < k < |idx| ensures idx[j] < idx[k] {
          assert idx[j] == tail[j] + 1 && idx[k] == tail[k] + 1;
        }
      } else {
        forall j, k | 0 <= j < k < |idx| ensures idx[j] < idx[k] {
          assert idx[k] == tail[k - 1] + 1;
          if j > 0 {
            assert idx[j] == tail[j - 1] + 1;
          }
        }
      }
    }
  }

  /** The kept trips are the trips at those positions. */
  lemma {:induction false} KeptAt(trips: seq<ShapeTrip>, seen: set<Option<string>>)
    ensures var idx := KeptPositions(trips, seen);
            var r := FirstPerShape(trips, seen);
            |idx| == |r| && forall j :: 0 <= j < |idx| ==> trips[idx[j]] == r[j]
  {
    if trips != [] {
      var rest := trips[1..];
      var s0 := trips[0].shapeId;
      var seen' := if s0 in seen then seen else seen + {s0};
      KeptAt(rest, seen');
      var tail := KeptPositions(rest, seen');
      var rr := FirstPerShape(rest, seen');
      var idx := KeptPositions(trips, seen);
      var r := FirstPerShape(trips, seen);
      if s0 in seen {
        assert r == rr;
        forall j | 0 <= j < |idx| ensures trips[idx[j]] == r[j] {
          assert idx[j] == tail[j] + 1;
          assert trips[tail[j] + 1] == rest[tail[j]];
        }
      } else {
        assert r == [trips[0]] + rr;
        forall j | 0 <= j < |idx| ensures trips[idx[j]] == r[j] {
          if j > 0 {
            assert idx[j] == tail[j - 1] + 1;
            assert trips[tail[j - 1] + 1] == rest[tail[j - 1]];
          }
        }
      }
    }
  }

  /** `drop_duplicates` keeps the first trip of each shape id: a kept trip's
      shape id was not seen before, and no earlier trip has it. */
  lemma {:induction false} KeptAreFirst(trips: seq<ShapeTrip>, seen: set<Option<string>>)
    ensures forall j :: 0 <= j < |KeptPositions(trips, seen)| ==>
              trips[KeptPositions(trips, seen)[j]].shapeId !in seen
    ensures forall j, l :: 0 <= j < |KeptPositions(trips, seen)| && 0 <= l < KeptPositions(trips, seen)[j] ==>
              trips[l].shapeId != trips[KeptPositions(trips, seen)[j]].shapeId
  {
    if trips != [] {
      var rest := trips[1..];
      var s0 := trips[0].shapeId;
      var seen' := if s0 in seen then seen else seen + {s0};
      KeptAreFirst(rest, seen');
      var tail := KeptPositions(rest, seen');
      var idx := KeptPositions(trips, seen);
      forall j | 0 <= j < |idx| && idx[j] > 0
        ensures trips[idx[j]].shapeId !in seen'
        ensures forall l :: 0 <= l < idx[j] ==> trips[l].shapeId != trips[idx[j]].shapeId
      {
        var t := if s0 in seen then tail[j] else tail[j - 1];
        assert idx[j] == t + 1;
        assert trips[idx[j]] == rest[t];
        forall l | 0 < l < idx[j] ensures trips[l].shapeId != trips[idx[j]].shapeId {
          assert trips[l] == rest[l - 1];
        }
      }
    }
  }

  /** The links of the run so far with the cursor (`start_dist`). */
  datatype Cut = Cut(links: map<LinkKey, Link>, cursor: Option<real>)

  /** A stored key updates its link; a new key creates one. */
  function NewLink(existing: map<LinkKey, nat>, key: LinkKey, geometry: nat): (l: Link)
    ensures l.geometry == geometry
    ensures l.id.Some? <==> key in existing
    ensures key in existing ==> l.id == Some(existing[key])
  {
    Link(if key in existing then Some(existing[key]) else None, geometry)
  }

  /** One pair of consecutive stops of a trip. A key already cut is
      skipped and resets the cursor. Otherwise the start is the cursor,
      re-projected from the first stop when the cursor is unset or 0 (a
      zero distance is false); the piece up to the second stop is kept
      when it is a LineString; the cursor moves to the second stop either
      way. None where a stop is not among `stops` (a KeyError). */
  function PairStep(g: Geometry, shape: nat, service: nat, existing: map<LinkKey, nat>, stops: set<string>,
                    c: Cut, a: string, b: string): (r: Option<Cut>)
    ensures LinkKey(service, a, b) in c.links ==> r == Some(Cut(c.links, None))
    ensures LinkKey(service, a, b) !in c.links ==>
              var reproject := c.cursor.None? || c.cursor.value == 0.0;
              (r.None? <==> (reproject && a !in stops) || b !in stops) &&
              (r.Some? ==>
                 var start := if reproject then g.project(shape, a) else c.cursor.value;
                 var piece := g.substring(shape, start, g.project(shape, b));
                 r.value.cursor == Some(g.project(shape, b)) &&
                 r.value.links == (if g.isLine(piece) then c.links[LinkKey(service, a, b) := NewLink(existing, LinkKey(service, a, b), piece)]
                                   else c.links))
  {
    var key := LinkKey(service, a, b);
    if key in c.links then Some(Cut(c.links, None))
    else
      var start :=
        if c.cursor.None? || c.cursor.value == 0.0 then (if a in stops then Some(g.project(shape, a)) else None)
        else c.cursor;
      if start.None? || b !in stops then None
      else
        var end := g.project(shape, b);
        var piece := g.substring(shape, start.value, end);
        Some(Cut(if g.isLine(piece) then c.links[key := NewLink(existing, key, piece)] else c.links, Some(end)))
  }

  /** The pairs of a trip's stop times from pair `k` on. */
  function PairsFrom(g: Geometry, shape: nat, service: nat, existing: map<LinkKey, nat>, stops: set<string>,
                     prefix: string, rows: seq<StopTimeRow>, k: nat, c: Cut): Option<Cut>
    decreases |rows| - k
  {
    if k + 1 >= |rows| then Some(c)
    else
      match PairStep(g, shape, service, existing, stops, c,
                     Prefixed(prefix, rows[k].stopId), Prefixed(prefix, rows[k + 1].stopId))
      case None => None
      case Some(c') => PairsFrom(g, shape, service, existing, stops, prefix, rows, k + 1, c')
  }

  /** The inner loop of `do_route_links` over one trip's consecutive stops,
      starting with no cursor. */
  method CutTrip(g: Geometry, shape: nat, service: nat, existing: map<LinkKey, nat>, stops: set<string>,
                 prefix: string, rows: seq<StopTimeRow>, links: map<LinkKey, Link>)
    returns (r: Option<map<LinkKey, Link>>)
    ensures var spec := PairsFrom(g, shape, service, existing, stops, prefix, rows, 0, Cut(links, None));
            r == if spec.None? then None else Some(spec.value.links)
  {
    var c := Cut(links, None);
    var k := 0;
    while k + 1 < |rows|
      invariant PairsFrom(g, shape, service, existing, stops, prefix, rows, 0, Cut(links, None)) ==
                PairsFrom(g, shape, service, existing, stops, prefix, rows, k, c)
      decreases |rows| - k
    {
      var fromStop := Prefixed(prefix, rows[k].stopId);
      var toStop := Prefixed(prefix, rows[k + 1].stopId);
      var key := LinkKey(service, fromStop, toStop);
      if key in c.links {
        c := c.(cursor := None);
      } else {
        var start: real;
        if c.cursor.None? || c.cursor.value == 0.0 {
          if fromStop !in stops {
            return None;
          }
          start := g.project(shape, fromStop);
        } else {
          start := c.cursor.value;
        }
        if toStop !in stops {
          return None;
        }
        var end := g.project(shape, toStop);
        var piece := g.substring(shape, start, end);
        if g.isLine(piece) {
          c := c.(links := c.links[key := NewLink(existing, key, piece)]);
        }
        c := c.(cursor := Some(end));
      }
      k := k + 1;
    }
    return Some(c.links);
  }

  /** The trips from `t` on: a trip without geometry is skipped; a trip
      whose route is not among `routes` raises (None). */
  function TripsFrom(g: Geometry, routes: map<string, nat>, existing: map<LinkKey, nat>, stops: set<string>,
                     prefix: string, stopTimes: seq<StopTimeRow>, trips: seq<ShapeTrip>, t: nat,
                     links: map<LinkKey, Link>): Option<map<LinkKey, Link>>
    decreases |trips| - t
  {
    if t >= |trips| then Some(links)
    else
      var trip := trips[t];
      if trip.geometry.None? then TripsFrom(g, routes, existing, stops, prefix, stopTimes, trips, t + 1, links)
      else if trip.routeId !in routes then None
      else
        var cut := PairsFrom(g, trip.geometry.value, routes[trip.routeId], existing, stops, prefix,
                             RowsOf(stopTimes, trip.tripId), 0, Cut(links, None));
        if cut.None? then None
        else TripsFrom(g, routes, existing, stops, prefix, stopTimes, trips, t + 1, cut.value.links)
  }

  /** The links `do_route_links` writes; no writes at all when the feed's
      trips have no shapes (`get_trips` raises ValueError, here None);
      None where a lookup raises. */
  function RouteLinksOf(g: Geometry, routes: map<string, nat>, existing: map<LinkKey, nat>, stops: set<string>,
                        prefix: string, stopTimes: seq<StopTimeRow>, trips: Option<seq<ShapeTrip>>)
    : Option<map<LinkKey, Link>>
  {
    if trips.None? then Some(map[])
    else TripsFrom(g, routes, existing, stops, prefix, stopTimes, FirstPerShape(trips.value, {}), 0, map[])
  }

  /** `do_route_links`. */
  method DoRouteLinks(g: Geometry, routes: map<string, nat>, existing: map<LinkKey, nat>, stops: set<string>,
                      prefix: string, stopTimes: seq<StopTimeRow>, trips: Option<seq<ShapeTrip>>)
    returns (r: Option<map<LinkKey, Link>>)
    ensures r == RouteLinksOf(g, routes, existing, stops, prefix, stopTimes, trips)
  {
    if trips.None? {
      return Some(map[]);
    }
    var shapes := FirstPerShape(trips.value, {});
    var links: map<LinkKey, Link> := map[];
    var t := 0;
    while t < |shapes|
      invariant t <= |shapes|
      invariant RouteLinksOf(g, routes, existing, stops, prefix, stopTimes, trips) ==
                TripsFrom(g, routes, existing, stops, prefix, stopTimes, shapes, t, links)
    {
      var trip := shapes[t];
      if trip.geometry.Some? {
        if trip.routeId !in routes {
          return None;
        }
        var cut := CutTrip(g, trip.geometry.value, routes[trip.routeId], existing, stops, prefix,
                           RowsOf(stopTimes, trip.tripId), links);
        if cut.None? {
          return None;
        }
        links := cut.value;
      }
      t := t + 1;
    }
    return Some(links);
  }

  /** Each link carries the id of the stored link with its key, or none
      for a new key. */
  ghost predicate IdsFromExisting(existing: map<LinkKey, nat>, links: map<LinkKey, Link>) {
    forall k :: k in links ==> links[k].id == (if k in existing then Some(existing[k]) else None)
  }

  /** A link once cut keeps its geometry; every link carries the id of its
      stored namesake. */
  lemma {:induction false} PairsKeep(g: Geometry, shape: nat, service: nat, existing: map<LinkKey, nat>, stops: set<string>,
                                     prefix: string, rows: seq<StopTimeRow>, k: nat, c: Cut)
    requires IdsFromExisting(existing, c.links)
    requires PairsFrom(g, shape, service, existing, stops, prefix, rows, k, c).Some?
    ensures var r := PairsFrom(g, shape, service, existing, stops, prefix, rows, k, c).value;
            IdsFromExisting(existing, r.links) &&
            forall key :: key in c.links ==> key in r.links && r.links[key] == c.links[key]
    decreases |rows| - k
  {
    if k + 1 < |rows| {
      var c' := PairStep(g, shape, service, existing, stops, c,
                         Prefixed(prefix, rows[k].stopId), Prefixed(prefix, rows[k + 1].stopId)).value;
      PairsKeep(g, shape, service, existing, stops, prefix, rows, k + 1, c');
    }
  }

  /** Over all trips, the first trip to cut a key decides its link, and
      every link carries the id of its stored namesake. */
  lemma {:induction false} TripsKeep(g: Geometry, routes: map<string, nat>, existing: map<LinkKey, nat>, stops: set<string>,
                                     prefix: string, stopTimes: seq<StopTimeRow>, trips: seq<ShapeTrip>, t: nat,
                                     links: map<LinkKey, Link>)
    requires IdsFromExisting(existing, links)
    requires TripsFrom(g, routes, existing, stops, prefix, stopTimes, trips, t, links).Some?
    ensures var r := TripsFrom(g, routes, existing, stops, prefix, stopTimes, trips, t, links).value;
            IdsFromExisting(existing, r) && forall key :: key in links ==> key in r && r[key] == links[key]
    decreases |trips| - t
  {
    if t < |trips| {
      var trip := trips[t];
      if trip.geometry.Some? {
        var cut := PairsFrom(g, trip.geometry.value, routes[trip.routeId], existing, stops, prefix,
                             RowsOf(stopTimes, trip.tripId), 0, Cut(links, None));
        PairsKeep(g, trip.geometry.value, routes[trip.routeId], existing, stops, prefix,
                  RowsOf(stopTimes, trip.tripId), 0, Cut(links, None));
        TripsKeep(g, routes, existing, stops, prefix, stopTimes, trips, t + 1, cut.value.links);
      } else {
        TripsKeep(g, routes, existing, stops, prefix, stopTimes, trips, t + 1, links);
      }
    }
  }

  /** The links `bulk_update` writes: those with an id. */
  function Updated(links: map<LinkKey, Link>): set<LinkKey> {
    set k | k in links && links[k].id.Some?
  }

  /** The links `bulk_create` writes: those without. */
  function Created(links: map<LinkKey, Link>): set<LinkKey> {
    set k | k in links && links[k].id.None?
  }

  /** The updated links are exactly the stored keys among the links, the
      created ones exactly the others; so the two never overlap and
      together make up all links. */
  lemma UpdateOrCreate(g: Geometry, routes: map<string, nat>, existing: map<LinkKey, nat>, stops: set<string>,
                       prefix: string, stopTimes: seq<StopTimeRow>, trips: Option<seq<ShapeTrip>>)
    requires RouteLinksOf(g, routes, existing, stops, prefix, stopTimes, trips).Some?
    ensures var links := RouteLinksOf(g, routes, existing, stops, prefix, stopTimes, trips).value;
            Updated(links) == links.Keys * existing.Keys && Created(links) == links.Keys - existing.Keys &&
            Updated(links) * Created(links) == {} && Updated(links) + Created(links) == links.Keys
  {
    if trips.Some? {
      TripsKeep(g, routes, existing, stops, prefix, stopTimes, FirstPerShape(trips.value, {}), 0, map[]);
    }
  }
}
