/** The stop times `handle_zipfile` of
    bustimes/management/commands/import_gtfs_worldwide.py streams into the
    stop time table: how each stop_times.txt row is encoded, and which rows
    are written (those of created trips) and which skipped. Times go
    through `secs`, Django's `parse_duration` in whole seconds (None where
    it gives None), a library function outside the repository. */
module GtfsStopTimes {
  import opened Wrappers
  import opened GtfsSettings
  import opened GtfsTrips

  /** A value as Python compares it: a string never equals a number. */
  datatype PyValue = PyStr(s: string) | PyInt(n: int)

  /** `pick_up` and `set_down`: a code of 1 means no pickup (no drop-off);
      0, any other code, an empty cell or a missing column all mean a
      regular one. */
  function Allowed(code: Cell): (b: bool)
    ensures !b <==> code == Int(1)
  {
    match code
    case Int(0) => true
    case Int(1) => false
    case _ => true
  }

  /** `timing_status`: a principal timing point ("PTP") when the timepoint
      is 1 or the column is missing; "OTH" otherwise, an empty cell
      included. */
  function TimingStatus(timepoint: Cell): (s: string)
    ensures s == "PTP" || s == "OTH"
    ensures s == "PTP" <==> timepoint == Absent || timepoint == Int(1)
  {
    var v := if timepoint.Absent? then Int(1) else timepoint;
    if v == Int(1) then "PTP" else "OTH"
  }

  /** A row of the COPY into the stop time table. */
  datatype CopyRow = CopyRow(
    stopId: string,
    arrival: Option<int>,
    departure: int,
    sequence: int,
    tripPk: nat,
    timingStatus: string,
    pickUp: bool,
    setDown: bool,
    stopCode: string)

  /** The encoding of a row whose trip has id `pk`: the prefixed stop,
      the times in seconds, the timing status and the pickup and drop-off
      flags. The arrival is compared with the departure as a string against
      a number, so it is never left out, even when the two times are the
      same. None where a time does not parse (`total_seconds` of None
      raises). */
  function Encode(secs: string -> Option<nat>, prefix: string, row: StopTimeRow, pk: nat): (r: Option<CopyRow>)
    ensures r.Some? <==> secs(row.departureTime).Some? && secs(row.arrivalTime).Some?
    ensures r.Some? ==>
              r.value.departure == secs(row.departureTime).value &&
              r.value.arrival == secs(row.arrivalTime) && r.value.arrival.Some? &&
              r.value.stopId == Prefixed(prefix, row.stopId) && r.value.sequence == row.stopSequence &&
              r.value.tripPk == pk && r.value.stopCode == "" &&
              r.value.timingStatus == TimingStatus(row.timepoint) &&
              r.value.pickUp == Allowed(row.pickupType) && r.value.setDown == Allowed(row.dropOffType)
  {
    match secs(row.departureTime)
    case None => None
    case Some(departure) =>
      var arrival :=
        if PyStr(row.arrivalTime) != PyInt(departure) then secs(row.arrivalTime) else None;
      if arrival.None? then None
      else
        Some(CopyRow(Prefixed(prefix, row.stopId), arrival, departure, row.stopSequence, pk,
                     TimingStatus(row.timepoint), Allowed(row.pickupType), Allowed(row.dropOffType), ""))
  }

  /** The rows streamed and the counters of written and skipped rows. */
  datatype Copy = Copy(written: seq<CopyRow>, processed: nat, skipped: nat)

  /** One more row: its encoding fails the copy, or is written with its
      trip's id from `pks` when its trip was created, or counts as
      skipped. */
  function AddRow(secs: string -> Option<nat>, prefix: string, c: Copy, row: StopTimeRow, created: set<string>, pks: map<string, nat>)
    : Option<Copy>
    requires created <= pks.Keys
  {
    match Encode(secs, prefix, row, if row.tripId in created then pks[row.tripId] else 0)
    case None => None
    case Some(copyRow) =>
      if row.tripId in created then Some(Copy(c.written + [copyRow], c.processed + 1, c.skipped))
      else Some(c.(skipped := c.skipped + 1))
  }

  /** The stop time loop over `rows`: every row is parsed, so a bad time
      in a skipped row still ends the import (None). */
  function CopyOf(secs: string -> Option<nat>, prefix: string, rows: seq<StopTimeRow>, created: set<string>, pks: map<string, nat>): Option<Copy>
    requires created <= pks.Keys
  {
    if rows == [] then Some(Copy([], 0, 0))
    else
      match CopyOf(secs, prefix, rows[..|rows| - 1], created, pks)
      case None => None
      case Some(c) => AddRow(secs, prefix, c, rows[|rows| - 1], created, pks)
  }

  /** The pair of times of a row parses. */
  predicate TimesParse(secs: string -> Option<nat>, row: StopTimeRow) {
    secs(row.departureTime).Some? && secs(row.arrivalTime).Some?
  }

  /** The copy of one more row. */
  lemma CopyStep(secs: string -> Option<nat>, prefix: string, rows: seq<StopTimeRow>, created: set<string>, pks: map<string, nat>, i: nat)
    requires created <= pks.Keys && i < |rows| && CopyOf(secs, prefix, rows[..i], created, pks).Some?
    ensures CopyOf(secs, prefix, rows[..i + 1], created, pks) ==
              AddRow(secs, prefix, CopyOf(secs, prefix, rows[..i], created, pks).value, rows[i], created, pks)
  {
    assert rows[..i + 1][..i] == rows[..i];
  }

  /** Every row is counted once, as written or as skipped. */
  lemma {:induction false} CopyCounts(secs: string -> Option<nat>, prefix: string, rows: seq<StopTimeRow>, created: set<string>, pks: map<string, nat>)
    requires created <= pks.Keys && CopyOf(secs, prefix, rows, created, pks).Some?
    ensures var c := CopyOf(secs, prefix, rows, created, pks).value;
            c.processed + c.skipped == |rows| && c.processed == |c.written|
  {
    if rows != [] {
      CopyCounts(secs, prefix, rows[..|rows| - 1], created, pks);
    }
  }

  /** The copy succeeds exactly when every row's times parse. */
  lemma {:induction false} CopySucceeds(secs: string -> Option<nat>, prefix: string, rows: seq<StopTimeRow>, created: set<string>, pks: map<string, nat>)
    requires created <= pks.Keys
    ensures CopyOf(secs, prefix, rows, created, pks).Some? <==> forall k :: 0 <= k < |rows| ==> TimesParse(secs, rows[k])
  {
    if rows != [] {
      var init := rows[..|rows| - 1];
      CopySucceeds(secs, prefix, init, created, pks);
      AllParseSplit(secs, rows, init);
      var before := CopyOf(secs, prefix, init, created, pks);
      if before.Some? {
        AddRowSucceeds(secs, prefix, before.value, rows[|rows| - 1], created, pks);
      }
    }
  }

  /** Every row's times parse exactly when those of all but the last do
      and the last's do. */
  lemma AllParseSplit(secs: string -> Option<nat>, rows: seq<StopTimeRow>, init: seq<StopTimeRow>)
    requires rows != [] && init == rows[..|rows| - 1]
    ensures (forall k :: 0 <= k < |rows| ==> TimesParse(secs, rows[k])) <==>
            (forall k :: 0 <= k < |init| ==> TimesParse(secs, init[k])) && TimesParse(secs, rows[|rows| - 1])
  {
    assert forall k :: 0 <= k < |init| ==> init[k] == rows[k];
  }

  /** One more row is copied exactly when its times parse. */
  lemma AddRowSucceeds(secs: string -> Option<nat>, prefix: string, c: Copy, row: StopTimeRow, created: set<string>, pks: map<string, nat>)
    requires created <= pks.Keys
    ensures AddRow(secs, prefix, c, row, created, pks).Some? <==> TimesParse(secs, row)
  {
    var e := Encode(secs, prefix, row, if row.tripId in created then pks[row.tripId] else 0);
    assert e.Some? <==> TimesParse(secs, row);
  }

  /** A row of a created trip is written, with its trip's id. */
  lemma {:induction false} CreatedRowWritten(secs: string -> Option<nat>, prefix: string, rows: seq<StopTimeRow>, created: set<string>,
                                             pks: map<string, nat>, k: nat)
    requires created <= pks.Keys && CopyOf(secs, prefix, rows, created, pks).Some?
    requires k < |rows| && rows[k].tripId in created
    ensures Encode(secs, prefix, rows[k], pks[rows[k].tripId]).Some?
    ensures Encode(secs, prefix, rows[k], pks[rows[k].tripId]).value in CopyOf(secs, prefix, rows, created, pks).value.written
  {
    var init := rows[..|rows| - 1];
    if k < |rows| - 1 {
      assert init[k] == rows[k];
      CreatedRowWritten(secs, prefix, init, created, pks, k);
    }
  }

  /** Every written row belongs to a row of a created trip. */
  lemma {:induction false} WrittenFromCreated(secs: string -> Option<nat>, prefix: string, rows: seq<StopTimeRow>, created: set<string>,
                                              pks: map<string, nat>, j: nat)
    requires created <= pks.Keys && CopyOf(secs, prefix, rows, created, pks).Some?
    requires j < |CopyOf(secs, prefix, rows, created, pks).value.written|
    ensures exists k :: 0 <= k < |rows| && rows[k].tripId in created &&
              Encode(secs, prefix, rows[k], pks[rows[k].tripId]) == Some(CopyOf(secs, prefix, rows, created, pks).value.written[j])
  {
    var n := |rows| - 1;
    var init := rows[..n];
    var c := CopyOf(secs, prefix, init, created, pks).value;
    if j < |c.written| {
      WrittenFromCreated(secs, prefix, init, created, pks, j);
      var k :| 0 <= k < |init| && init[k].tripId in created &&
                Encode(secs, prefix, init[k], pks[init[k].tripId]) == Some(c.written[j]);
      assert init[k] == rows[k];
    } else {
      assert rows[n].tripId in created;
    }
  }

  /** The body of the stop time loop for one row, up to the write. */
  method EncodeRow(secs: string -> Option<nat>, prefix: string, row: StopTimeRow, pk: nat) returns (e: Option<CopyRow>)
    ensures e == Encode(secs, prefix, row, pk)
  {
    var departure := secs(row.departureTime);
    if departure.None? {
      return None;
    }
    var arrival := None;
    if PyStr(row.arrivalTime) != PyInt(departure.value) {
      arrival := secs(row.arrivalTime);
    }
    if arrival.None? {
      return None;
    }
    var stopId := Prefixed(prefix, row.stopId);
    e := Some(CopyRow(stopId, arrival, departure.value, row.stopSequence, pk,
                      TimingStatus(row.timepoint), Allowed(row.pickupType), Allowed(row.dropOffType), ""));
  }

  /** One turn of the stop time loop: the row written or skipped, or the
      copy failed. */
  method CopyRowStep(secs: string -> Option<nat>, prefix: string, rows: seq<StopTimeRow>, created: set<string>, pks: map<string, nat>, i: nat, c: Copy)
    returns (r: Option<Copy>)
    requires created <= pks.Keys && i < |rows| && CopyOf(secs, prefix, rows[..i], created, pks) == Some(c)
    ensures r == CopyOf(secs, prefix, rows[..i + 1], created, pks)
  {
    var row := rows[i];
    CopyStep(secs, prefix, rows, created, pks, i);
    var e := EncodeRow(secs, prefix, row, if row.tripId in created then pks[row.tripId] else 0);
    if e.None? {
      return None;
    }
    if row.tripId in created {
      r := Some(Copy(c.written + [e.value], c.processed + 1, c.skipped));
    } else {
      r := Some(c.(skipped := c.skipped + 1));
    }
    assert r == AddRow(secs, prefix, c, row, created, pks);
  }

  /** The stop time loop of `handle_zipfile`, with its counters. */
  method WriteStopTimes(secs: string -> Option<nat>, prefix: string, rows: seq<StopTimeRow>, created: set<string>, pks: map<string, nat>)
    returns (r: Option<Copy>)
    requires created <= pks.Keys
    ensures r == CopyOf(secs, prefix, rows, created, pks)
  {
    var c := Copy([], 0, 0);
    var i := 0;
    assert rows[..0] == [];
    while i < |rows|
      invariant 0 <= i <= |rows|
      invariant CopyOf(secs, prefix, rows[..i], created, pks) == Some(c)
    {
      var next := CopyRowStep(secs, prefix, rows, created, pks, i, c);
      if next.None? {
        FailureSticks(secs, prefix, rows, created, pks, i + 1);
        return None;
      }
      c := next.value;
      i := i + 1;
    }
    assert rows[..i] == rows;
    r := Some(c);
  }

  /** A copy that failed on some row stays failed. */
  lemma {:induction false} FailureSticks(secs: string -> Option<nat>, prefix: string, rows: seq<StopTimeRow>, created: set<string>,
                                         pks: map<string, nat>, i: nat)
    requires created <= pks.Keys
    requires i <= |rows| && CopyOf(secs, prefix, rows[..i], created, pks).None?
    ensures CopyOf(secs, prefix, rows, created, pks).None?
    decreases |rows| - i
  {
    if i < |rows| {
      assert rows[..i + 1][..i] == rows[..i];
      FailureSticks(secs, prefix, rows, created, pks, i + 1);
    } else {
      assert rows[..i] == rows;
    }
  }
}
