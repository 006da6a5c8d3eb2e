/** The trips of a static GTFS feed, as `handle_zipfile` of
    bustimes/management/commands/import_gtfs_worldwide.py loads them: stop
    times grouped by trip, each trip's start and end taken from its lowest
    and highest stop sequence, trips without stop times dropped, and the
    kept trips inserted in batches of 1000 whose ids fill `trip_id_to_pk`.
    Inserted trips take consecutive ids from `firstPk` on, as
    `bulk_create` hands them out. */
module GtfsTrips {
  import opened Wrappers
  import opened Text
  import opened GtfsSettings
  import opened GtfsRoutes

  /** An optional integer column of a feed row: the column is missing, the
      cell is empty (pandas' NaN, equal to no number), or a number. */
  datatype Cell = Absent | Blank | Int(n: int)

  /** A row of stop_times.txt. */
  datatype StopTimeRow = StopTimeRow(
    tripId: string,
    stopId: string,
    stopSequence: int,
    arrivalTime: string,
    departureTime: string,
    pickupType: Cell,
    dropOffType: Cell,
    timepoint: Cell)

  /** The rows of one trip, in file order. */
  function RowsOf(rows: seq<StopTimeRow>, tripId: string): (r: seq<StopTimeRow>)
    ensures forall x :: x in r ==> x in rows && x.tripId == tripId
    ensures r == [] <==> forall j :: 0 <= j < |rows| ==> rows[j].tripId != tripId
  {
    if rows == [] then []
    else
      var last := rows[|rows| - 1];
      var init := RowsOf(rows[..|rows| - 1], tripId);
      assert forall j :: 0 <= j < |rows| - 1 ==> rows[..|rows| - 1][j] == rows[j];
      if last.tripId == tripId then init + [last] else init
  }

  /** One more row adds itself to its own trip's rows only. */
  lemma RowsOfStep(rows: seq<StopTimeRow>, i: nat)
    requires i < |rows|
    ensures forall k :: RowsOf(rows[..i + 1], k) == RowsOf(rows[..i], k) + (if rows[i].tripId == k then [rows[i]] else [])
  {
    assert rows[..i + 1][..i] == rows[..i];
  }

  /** The list a trip id holds in the grouping dict, [] when it holds none. */
  function Group(g: map<string, seq<StopTimeRow>>, tripId: string): seq<StopTimeRow> {
    if tripId in g then g[tripId] else []
  }

  /** `stop_times_by_trip`: the rows of every trip that has some, each
      list in file order. */
  method GroupByTrip(rows: seq<StopTimeRow>) returns (g: map<string, seq<StopTimeRow>>)
    ensures forall k :: k in g <==> exists j :: 0 <= j < |rows| && rows[j].tripId == k
    ensures forall k :: k in g ==> g[k] == RowsOf(rows, k) && g[k] != []
  {
    g := map[];
    var i := 0;
    while i < |rows|
      invariant 0 <= i <= |rows|
      invariant forall k :: Group(g, k) == RowsOf(rows[..i], k)
      invariant forall k :: k in g ==> g[k] != []
    {
      var row := rows[i];
      RowsOfStep(rows, i);
      ghost var before := g;
      if row.tripId !in g {
        g := g[row.tripId := []];
      }
      g := g[row.tripId := g[row.tripId] + [row]];
      assert forall k :: Group(g, k) == Group(before, k) + (if row.tripId == k then [row] else []);
      i := i + 1;
    }
    assert rows[..i] == rows;
    assert forall k :: k in g <==> RowsOf(rows, k) != [];
  }

  /** The position of the row `sorted(..., key=stop_sequence)[0]` picks:
      a lowest sequence, the first of them (the sort is stable). */
  function FirstLowest(rows: seq<StopTimeRow>): (k: nat)
    requires rows != []
    ensures k < |rows|
    ensures forall j :: 0 <= j < |rows| ==> rows[k].stopSequence <= rows[j].stopSequence
    ensures forall j :: 0 <= j < k ==> rows[j].stopSequence > rows[k].stopSequence
  {
    if |rows| == 1 then 0
    else
      var k := FirstLowest(rows[..|rows| - 1]);
      assert forall j :: 0 <= j < |rows| - 1 ==> rows[..|rows| - 1][j] == rows[j];
      if rows[|rows| - 1].stopSequence < rows[k].stopSequence then |rows| - 1 else k
  }

  /** The position of the row `sorted(..., key=stop_sequence)[-1]` picks:
      a highest sequence, the last of them. */
  function LastHighest(rows: seq<StopTimeRow>): (k: nat)
    requires rows != []
    ensures k < |rows|
    ensures forall j :: 0 <= j < |rows| ==> rows[j].stopSequence <= rows[k].stopSequence
    ensures forall j :: k < j < |rows| ==> rows[j].stopSequence < rows[k].stopSequence
  {
    if |rows| == 1 then 0
    else
      var k := LastHighest(rows[..|rows| - 1]);
      assert forall j :: 0 <= j < |rows| - 1 ==> rows[..|rows| - 1][j] == rows[j];
      if rows[|rows| - 1].stopSequence >= rows[k].stopSequence then |rows| - 1 else k
  }

  /** A row of trips.txt; the block id is None where it is missing or
      empty, the direction None where the column is missing. */
  datatype TripLine = TripLine(
    routeId: string,
    serviceId: string,
    tripId: string,
    blockId: Option<string>,
    directionId: Option<int>,
    headsign: string,
    shortName: string)

  /** The block: the stripped block id, unless that is "", "N/A" or "n/a". */
  function Block(blockId: Option<string>): (b: string)
    ensures b != "N/A" && b != "n/a"
    ensures blockId.None? ==> b == ""
    ensures blockId.Some? ==>
              var s := Strip(blockId.value);
              b == (if s == "" || s == "N/A" || s == "n/a" then "" else s)
  {
    if blockId.None? then ""
    else
      var s := Strip(blockId.value);
      if s == "" || s == "N/A" || s == "n/a" then "" else s
  }

  /** What the trip loop reads besides the trips: the run's routes and
      their operators (from `handle_route`), the calendars by service id,
      the codes of the stops `do_stops` returned, and the grouped stop
      times. */
  datatype Lookups = Lookups(
    stopPrefix: string,
    routes: map<string, nat>,
    routeOperators: map<string, Option<nat>>,
    calendars: map<string, nat>,
    stopCodes: set<string>,
    groups: map<string, seq<StopTimeRow>>)

  /** The dict lookups of the trip loop succeed (else a KeyError ends the
      import). */
  predicate Resolvable(lk: Lookups, line: TripLine) {
    line.routeId in lk.routes && line.routeId in lk.routeOperators && line.serviceId in lk.calendars
  }

  /** The trip has stop times, so it gets a start. */
  predicate HasStopTimes(lk: Lookups, line: TripLine) {
    line.tripId in lk.groups && lk.groups[line.tripId] != []
  }

  /** The trip the loop builds: start the departure of the first row of
      lowest sequence, end the arrival of the last row of highest
      sequence, destination the prefixed code of that last stop when
      `do_stops` returned it. */
  function BuildTrip(lk: Lookups, line: TripLine): (t: TripRec)
    requires Resolvable(lk, line) && HasStopTimes(lk, line)
    ensures var rows := lk.groups[line.tripId];
            t.start == rows[FirstLowest(rows)].departureTime && t.end == rows[LastHighest(rows)].arrivalTime
    ensures var code := Prefixed(lk.stopPrefix, lk.groups[line.tripId][LastHighest(lk.groups[line.tripId])].stopId);
            t.destination == (if code in lk.stopCodes then Some(code) else None)
    ensures t.route == lk.routes[line.routeId] && t.calendar == lk.calendars[line.serviceId]
    ensures t.operator == lk.routeOperators[line.routeId] && t.ticketCode == line.tripId
    ensures t.inbound <==> line.directionId == Some(1)
  {
    var rows := lk.groups[line.tripId];
    var first := rows[FirstLowest(rows)];
    var last := rows[LastHighest(rows)];
    var code := Prefixed(lk.stopPrefix, last.stopId);
    TripRec(
      lk.routes[line.routeId],
      lk.calendars[line.serviceId],
      line.directionId == Some(1),
      line.headsign,
      line.tripId,
      Block(line.blockId),
      line.shortName,
      lk.routeOperators[line.routeId],
      first.departureTime,
      last.arrivalTime,
      if code in lk.stopCodes then Some(code) else None)
  }

  /** The ticket codes of a list of trips. */
  function Codes(trips: seq<TripRec>): set<string> {
    if trips == [] then {} else Codes(trips[..|trips| - 1]) + {trips[|trips| - 1].ticketCode}
  }

  /** The loop's counters and the trips it keeps, in input order. */
  datatype TripLoad = TripLoad(inserted: seq<TripRec>, created: set<string>, withStart: nat, withoutStart: nat)

  /** One more trip line: None where a lookup raises; a trip with stop
      times is inserted and its id recorded as created; any other is
      counted as without start. */
  function AddLine(lk: Lookups, st: TripLoad, line: TripLine): Option<TripLoad> {
    if !Resolvable(lk, line) then None
    else if HasStopTimes(lk, line) then
      Some(TripLoad(st.inserted + [BuildTrip(lk, line)], st.created + {line.tripId}, st.withStart + 1, st.withoutStart))
    else Some(st.(withoutStart := st.withoutStart + 1))
  }

  /** The trip loop over `lines`: None where a lookup raises. */
  function LoadOf(lk: Lookups, lines: seq<TripLine>): Option<TripLoad>
  {
    if lines == [] then Some(TripLoad([], {}, 0, 0))
    else
      match LoadOf(lk, lines[..|lines| - 1])
      case None => None
      case Some(st) => AddLine(lk, st, lines[|lines| - 1])
  }

  /** Every trip line is counted once, with or without start, and the
      trips with a start are the inserted ones. */
  lemma {:induction false} LoadCounts(lk: Lookups, lines: seq<TripLine>)
    requires LoadOf(lk, lines).Some?
    ensures var st := LoadOf(lk, lines).value;
            st.withStart + st.withoutStart == |lines| && st.withStart == |st.inserted|
  {
    if lines != [] {
      LoadCounts(lk, lines[..|lines| - 1]);
    }
  }

  /** `created_trip_ids` holds the ticket codes of the inserted trips. */
  lemma {:induction false} CreatedAreCodes(lk: Lookups, lines: seq<TripLine>)
    requires LoadOf(lk, lines).Some?
    ensures LoadOf(lk, lines).value.created == Codes(LoadOf(lk, lines).value.inserted)
  {
    if lines != [] {
      var init := lines[..|lines| - 1];
      CreatedAreCodes(lk, init);
      var st := LoadOf(lk, init).value;
      if HasStopTimes(lk, lines[|lines| - 1]) {
        var ins := st.inserted + [BuildTrip(lk, lines[|lines| - 1])];
        assert ins[..|ins| - 1] == st.inserted;
      }
    }
  }

  /** An import that failed on some trip stays failed. */
  lemma {:induction false} FailureSticks(lk: Lookups, lines: seq<TripLine>, i: nat)
    requires i <= |lines| && LoadOf(lk, lines[..i]).None?
    ensures LoadOf(lk, lines).None?
    decreases |lines| - i
  {
    if i < |lines| {
      assert lines[..i + 1][..i] == lines[..i];
      FailureSticks(lk, lines, i + 1);
    } else {
      assert lines[..i] == lines;
    }
  }

  /** `trip_id_to_pk` once the trips are inserted: each ticket code maps
      to the id of the last trip inserted with it. */
  function PkMap(inserted: seq<TripRec>, firstPk: nat): map<string, nat> {
    if inserted == [] then map[]
    else
      var n := |inserted| - 1;
      PkMap(inserted[..n], firstPk)[inserted[n].ticketCode := firstPk + n]
  }

  /** `trip_id_to_pk` has exactly the inserted codes. */
  lemma {:induction false} PkMapKeys(inserted: seq<TripRec>, firstPk: nat)
    ensures PkMap(inserted, firstPk).Keys == Codes(inserted)
  {
    if inserted != [] {
      PkMapKeys(inserted[..|inserted| - 1], firstPk);
    }
  }

  /** Each code of `trip_id_to_pk` maps to an inserted trip with that
      code, and no later one has it. */
  lemma {:induction false} PkMapPoints(inserted: seq<TripRec>, firstPk: nat, c: string)
    requires c in PkMap(inserted, firstPk)
    ensures var k := PkMap(inserted, firstPk)[c] - firstPk;
            0 <= k < |inserted| && inserted[k].ticketCode == c &&
            forall j :: k < j < |inserted| ==> inserted[j].ticketCode != c
  {
    var n := |inserted| - 1;
    if inserted[n].ticketCode != c {
      var init := inserted[..n];
      PkMapPoints(init, firstPk, c);
      assert forall j :: 0 <= j < n ==> init[j] == inserted[j];
    }
  }

  /** Every created trip id has an entry in `trip_id_to_pk`, so the stop
      time loop's lookup never raises. */
  lemma CreatedHavePks(lk: Lookups, lines: seq<TripLine>, firstPk: nat)
    requires LoadOf(lk, lines).Some?
    ensures LoadOf(lk, lines).value.created == PkMap(LoadOf(lk, lines).value.inserted, firstPk).Keys
  {
    CreatedAreCodes(lk, lines);
    PkMapKeys(LoadOf(lk, lines).value.inserted, firstPk);
  }

  /** A trip with stop times that the loop reaches is inserted, as built. */
  lemma {:induction false} TripWithStopTimesInserted(lk: Lookups, lines: seq<TripLine>, k: nat)
    requires k < |lines| && LoadOf(lk, lines).Some?
    requires HasStopTimes(lk, lines[k])
    ensures Resolvable(lk, lines[k])
    ensures BuildTrip(lk, lines[k]) in LoadOf(lk, lines).value.inserted
  {
    var n := |lines| - 1;
    var init := lines[..n];
    assert LoadOf(lk, init).Some?;
    if k < n {
      assert init[k] == lines[k];
      TripWithStopTimesInserted(lk, init, k);
    }
  }

  /** Every inserted trip comes from a line with stop times. */
  lemma {:induction false} InsertedFromLines(lk: Lookups, lines: seq<TripLine>, j: nat)
    requires LoadOf(lk, lines).Some? && j < |LoadOf(lk, lines).value.inserted|
    ensures exists k :: 0 <= k < |lines| && Resolvable(lk, lines[k]) && HasStopTimes(lk, lines[k]) &&
              LoadOf(lk, lines).value.inserted[j] == BuildTrip(lk, lines[k])
  {
    var n := |lines| - 1;
    var init := lines[..n];
    var st := LoadOf(lk, init).value;
    if j < |st.inserted| {
      InsertedFromLines(lk, init, j);
      var k :| 0 <= k < |init| && Resolvable(lk, init[k]) && HasStopTimes(lk, init[k]) &&
                st.inserted[j] == BuildTrip(lk, init[k]);
      assert init[k] == lines[k];
    } else {
      assert LoadOf(lk, lines).value.inserted[j] == BuildTrip(lk, lines[n]);
    }
  }

  /** The load of one more trip line is one more `AddLine`. */
  lemma LoadStep(lk: Lookups, lines: seq<TripLine>, i: nat)
    requires i < |lines| && LoadOf(lk, lines[..i]).Some?
    ensures LoadOf(lk, lines[..i + 1]) == AddLine(lk, LoadOf(lk, lines[..i]).value, lines[i])
  {
    assert lines[..i + 1][..i] == lines[..i];
  }

  /** One more trip line, not resolvable, fails the load. */
  lemma LoadFails(lk: Lookups, lines: seq<TripLine>, i: nat)
    requires i < |lines| && !Resolvable(lk, lines[i])
    ensures LoadOf(lk, lines[..i + 1]).None?
  {
    assert lines[..i + 1][..i] == lines[..i];
  }

  /** The `for t in valid_trips` loop after a `bulk_create` that gave the
      batch the ids from `base` on. */
  method Flush(pks: map<string, nat>, flushed: seq<TripRec>, batch: seq<TripRec>, firstPk: nat)
    returns (pks': map<string, nat>)
    requires pks == PkMap(flushed, firstPk)
    ensures pks' == PkMap(flushed + batch, firstPk)
  {
    pks' := pks;
    var k := 0;
    assert flushed + batch[..0] == flushed;
    while k < |batch|
      invariant 0 <= k <= |batch|
      invariant pks' == PkMap(flushed + batch[..k], firstPk)
    {
      var s := flushed + batch[..k + 1];
      assert s[..|s| - 1] == flushed + batch[..k];
      pks' := pks'[batch[k].ticketCode := firstPk + |flushed| + k];
      k := k + 1;
    }
    assert batch[..k] == batch;
  }

  /** A kept trip joins the batch; a batch that reaches 1000 trips is
      inserted and its ids recorded. */
  method Admit(t: TripRec, flushed: seq<TripRec>, batch: seq<TripRec>, pks: map<string, nat>, firstPk: nat)
    returns (flushed': seq<TripRec>, batch': seq<TripRec>, pks': map<string, nat>)
    requires pks == PkMap(flushed, firstPk) && |batch| < 1000
    ensures flushed' + batch' == flushed + batch + [t]
    ensures pks' == PkMap(flushed', firstPk) && |batch'| < 1000
  {
    flushed', batch', pks' := flushed, batch + [t], pks;
    if |batch'| >= 1000 {
      pks' := Flush(pks', flushed', batch', firstPk);
      flushed' := flushed' + batch';
      batch' := [];
      assert flushed' + batch' == flushed + batch + [t];
    }
  }

  /** The trip loop of `handle_zipfile`, with its batches: the trips kept,
      `created_trip_ids`, the counters and `trip_id_to_pk`; None where a
      route or calendar lookup raises. */
  method LoadTrips(lk: Lookups, lines: seq<TripLine>, firstPk: nat) returns (r: Option<(TripLoad, map<string, nat>)>)
    ensures r.None? <==> LoadOf(lk, lines).None?
    ensures r.Some? ==> r.value.0 == LoadOf(lk, lines).value && r.value.1 == PkMap(r.value.0.inserted, firstPk)
  {
    var flushed: seq<TripRec> := [];
    var batch: seq<TripRec> := [];
    var created: set<string> := {};
    var pks: map<string, nat> := map[];
    var withStart, withoutStart := 0, 0;
    var i := 0;
    assert lines[..0] == [] && flushed + batch == [];
    while i < |lines|
      invariant 0 <= i <= |lines|
      invariant LoadOf(lk, lines[..i]) == Some(TripLoad(flushed + batch, created, withStart, withoutStart))
      invariant pks == PkMap(flushed, firstPk)
      invariant |batch| < 1000
    {
      var line := lines[i];
      if !Resolvable(lk, line) {
        LoadFails(lk, lines, i);
        FailureSticks(lk, lines, i + 1);
        return None;
      }
      LoadStep(lk, lines, i);
      if HasStopTimes(lk, line) {
        flushed, batch, pks := Admit(BuildTrip(lk, line), flushed, batch, pks, firstPk);
        created := created + {line.tripId};
        withStart := withStart + 1;
      } else {
        withoutStart := withoutStart + 1;
      }
      i := i + 1;
    }
    assert lines[..i] == lines;
    if batch != [] {
      pks := Flush(pks, flushed, batch, firstPk);
      flushed := flushed + batch;
    } else {
      assert flushed + batch == flushed;
    }
    r := Some((TripLoad(flushed, created, withStart, withoutStart), pks));
  }
}
