/** The stops of a static GTFS feed, as `do_stops` of
    bustimes/management/commands/import_gtfs_worldwide.py handles them: each
    stops.txt row becomes a stop under its prefixed code (a later row with
    the same code replacing an earlier one), the rows are partitioned into
    stops to create and stops to update, and the new stops get an admin
    area. Coordinates are compared as exact numbers. */
module GtfsStops {
  import opened Wrappers
  import opened Text
  import opened GtfsSettings
  import opened Tables

  /** A row of stops.txt. */
  datatype StopRow = StopRow(stopId: string, stopName: string, lon: real, lat: real)

  /** A StopPoint as built from a row; `indicator` is "" unless the name
      held one. */
  datatype Stop = Stop(code: string, commonName: string, indicator: string, lon: real, lat: real)

  /** The name holds ", stop" and exactly one ", ". */
  predicate HasIndicator(name: string) {
    Contains(name, ", stop") && CountSub(name, ", ") == 1
  }

  /** The common name and indicator of a stop name: split at its ", " when
      it holds ", stop" and exactly one ", "; the common name then cut to
      48 characters. */
  function CommonNameAndIndicator(name: string): (r: (string, string))
    ensures |r.0| <= 48
    ensures !HasIndicator(name) ==> r == (Take(name, 48), "")
    ensures HasIndicator(name) ==>
              exists i: nat :: i + 2 <= |name| && name == name[..i] + ", " + name[i + 2..] &&
                               r == (Take(name[..i], 48), name[i + 2..])
  {
    if HasIndicator(name) then
      assert Contains(name, ", ") by {
        var j: nat :| j <= |name| && OccursAt(name, ", stop", j);
        assert name[j..j + 2] == name[j..j + 6][..2];
        assert OccursAt(name, ", ", j);
      }
      var i := Find(name, ", ").value;
      assert name == name[..i] + name[i..i + 2] + name[i + 2..];
      (Take(name[..i], 48), name[i + 2..])
    else (Take(name, 48), "")
  }

  /** `s.count(", ")` is 0 when ", " never occurs. */
  lemma {:induction false} CountAbsent(s: string)
    requires !Contains(s, ", ")
    ensures CountSub(s, ", ") == 0
    decreases |s|
  {
    if |s| >= 2 {
      assert !OccursAt(s, ", ", 0);
      assert s[..2] != ", ";
      forall j: nat | j <= |s[1..]| ensures !OccursAt(s[1..], ", ", j) {
        if j + 2 <= |s[1..]| {
          assert s[1..][j..j + 2] == s[j + 1..j + 3];
          assert !OccursAt(s, ", ", j + 1);
        }
      }
      CountAbsent(s[1..]);
    }
  }

  /** A text without a comma in front adds no ", ". */
  lemma {:induction false} CountCommaFree(a: string, rest: string)
    requires ',' !in a
    ensures CountSub(a + rest, ", ") == CountSub(rest, ", ")
    decreases |a|
  {
    if a != [] {
      var s := a + rest;
      if |s| >= 2 {
        assert s[..2][0] == a[0];
        assert s[1..] == a[1..] + rest;
      }
      CountCommaFree(a[1..], rest);
    } else {
      assert a + rest == rest;
    }
  }

  /** No ", " starts inside a comma-free front part. */
  lemma NoSeparatorBefore(a: string, rest: string)
    requires ',' !in a
    ensures forall j: nat :: j < |a| ==> !OccursAt(a + rest, ", ", j)
  {
    var s := a + rest;
    forall j: nat | j < |a| ensures !OccursAt(s, ", ", j) {
      assert s[j] == a[j];
      if j + 2 <= |s| {
        assert s[j..j + 2][0] == s[j];
      }
    }
  }

  /** The first ", " of `a + ", " + b`, for a comma-free `a`, is the one
      after `a`. */
  lemma FindsSeparator(a: string, b: string)
    requires ',' !in a
    ensures Find(a + ", " + b, ", ") == Some(|a|)
  {
    var name := a + ", " + b;
    assert name == a + (", " + b);
    NoSeparatorBefore(a, ", " + b);
    assert name[|a|..|a| + 2] == ", ";
    assert OccursAt(name, ", ", |a|);
  }

  /** "Main Street, stop 3"-style names split into common name and
      indicator. */
  lemma SplitsStopName(a: string, b: string)
    requires ',' !in a && StartsWith(b, "stop") && !Contains(b, ", ")
    ensures CommonNameAndIndicator(a + ", " + b) == (Take(a, 48), b)
  {
    var name := a + ", " + b;
    assert name == a + (", " + b);
    assert OccursAt(name, ", stop", |a|) by {
      assert name[|a|..|a| + 6] == ", " + b[..4];
    }
    CountCommaFree(a, ", " + b);
    assert (", " + b)[2..] == b;
    CountAbsent(b);
    assert CountSub(name, ", ") == 1;
    FindsSeparator(a, b);
    assert name[..|a|] == a && name[|a| + 2..] == b;
  }

  /** The StopPoint of a row. */
  function NewStop(prefix: string, row: StopRow): (s: Stop)
    ensures s.code == Prefixed(prefix, row.stopId)
    ensures (s.commonName, s.indicator) == CommonNameAndIndicator(row.stopName)
    ensures s.lon == row.lon && s.lat == row.lat
  {
    var (name, indicator) := CommonNameAndIndicator(row.stopName);
    Stop(Prefixed(prefix, row.stopId), name, indicator, row.lon, row.lat)
  }

  /** The `stops` dict: stops by code. */
  type StopTable = Dict<Stop>

  /** A well-formed dict whose every stop sits under its own code. */
  ghost predicate WellFormed(t: StopTable) {
    DictWellFormed(t) && forall c :: c in t.entries ==> t.entries[c].code == c
  }

  /** The `stops` dict after the rows, in order. */
  function StopsOf(prefix: string, rows: seq<StopRow>): StopTable {
    if rows == [] then Dict([], map[])
    else
      var last := rows[|rows| - 1];
      Put(StopsOf(prefix, rows[..|rows| - 1]), Prefixed(prefix, last.stopId), NewStop(prefix, last))
  }

  /** The dict of any rows is well formed. */
  lemma {:induction false} StopsWellFormed(prefix: string, rows: seq<StopRow>)
    ensures WellFormed(StopsOf(prefix, rows))
  {
    if rows != [] {
      StopsWellFormed(prefix, rows[..|rows| - 1]);
      var stop := NewStop(prefix, rows[|rows| - 1]);
      PutWellFormed(StopsOf(prefix, rows[..|rows| - 1]), stop.code, stop);
    }
  }

  /** The loop of `do_stops` filling `stops`. */
  method CollectStops(prefix: string, rows: seq<StopRow>) returns (t: StopTable)
    ensures t == StopsOf(prefix, rows)
  {
    t := Dict([], map[]);
    var i := 0;
    while i < |rows|
      invariant 0 <= i <= |rows|
      invariant t == StopsOf(prefix, rows[..i])
    {
      assert rows[..i + 1][..i] == rows[..i];
      var stop := NewStop(prefix, rows[i]);
      t := Put(t, stop.code, stop);
      i := i + 1;
    }
    assert rows[..i] == rows;
  }

  /** The codes of the rows. */
  ghost function Codes(prefix: string, rows: seq<StopRow>): set<string> {
    if rows == [] then {} else Codes(prefix, rows[..|rows| - 1]) + {Prefixed(prefix, rows[|rows| - 1].stopId)}
  }

  /** The keys of the dict are the codes of the rows. */
  lemma {:induction false} KeysAreCodes(prefix: string, rows: seq<StopRow>)
    ensures StopsOf(prefix, rows).entries.Keys == Codes(prefix, rows)
  {
    if rows != [] {
      KeysAreCodes(prefix, rows[..|rows| - 1]);
      StopsKeysLast(prefix, rows);
    }
  }

  /** A row's code is among the codes. */
  lemma {:induction false} CodeOfRow(prefix: string, rows: seq<StopRow>, j: nat)
    requires j < |rows|
    ensures Prefixed(prefix, rows[j].stopId) in Codes(prefix, rows)
  {
    var n := |rows| - 1;
    if j < n {
      assert rows[..n][j] == rows[j];
      CodeOfRow(prefix, rows[..n], j);
    }
  }

  /** Every row's code is a key. */
  lemma RowCodeIsKey(prefix: string, rows: seq<StopRow>, j: nat)
    requires j < |rows|
    ensures Prefixed(prefix, rows[j].stopId) in StopsOf(prefix, rows).entries
  {
    KeysAreCodes(prefix, rows);
    CodeOfRow(prefix, rows, j);
  }

  /** Every key is some row's code. */
  lemma {:induction false} KeyIsRowCode(prefix: string, rows: seq<StopRow>, c: string) returns (j: nat)
    requires c in StopsOf(prefix, rows).entries
    ensures j < |rows| && Prefixed(prefix, rows[j].stopId) == c
  {
    var n := |rows| - 1;
    StopsKeysLast(prefix, rows);
    if c == Prefixed(prefix, rows[n].stopId) {
      j := n;
    } else {
      j := KeyIsRowCode(prefix, rows[..n], c);
      assert rows[..n][j] == rows[j];
    }
  }

  /** The dict after one more row. */
  lemma StopsOfLast(prefix: string, rows: seq<StopRow>)
    requires rows != []
    ensures var last := rows[|rows| - 1];
            StopsOf(prefix, rows).entries ==
              StopsOf(prefix, rows[..|rows| - 1]).entries[Prefixed(prefix, last.stopId) := NewStop(prefix, last)]
  {
  }

  /** The codes after one more row: its code joins them. */
  lemma StopsKeysLast(prefix: string, rows: seq<StopRow>)
    requires rows != []
    ensures StopsOf(prefix, rows).entries.Keys ==
              StopsOf(prefix, rows[..|rows| - 1]).entries.Keys + {Prefixed(prefix, rows[|rows| - 1].stopId)}
  {
    StopsOfLast(prefix, rows);
  }

  /** No later row with the same id, within all but the last row. */
  lemma NoLaterInInit(rows: seq<StopRow>, init: seq<StopRow>, j: nat)
    requires |rows| > 0 && init == rows[..|rows| - 1] && j < |init|
    requires forall k :: j < k < |rows| ==> rows[k].stopId != rows[j].stopId
    ensures forall k :: j < k < |init| ==> init[k].stopId != init[j].stopId
  {
    assert forall k :: 0 <= k < |init| ==> init[k] == rows[k];
  }

  /** A code holds the stop of the last row with that code. */
  lemma {:induction false} LastRowWins(prefix: string, rows: seq<StopRow>, j: nat)
    requires j < |rows|
    requires forall k :: j < k < |rows| ==> rows[k].stopId != rows[j].stopId
    ensures Prefixed(prefix, rows[j].stopId) in StopsOf(prefix, rows).entries
    ensures StopsOf(prefix, rows).entries[Prefixed(prefix, rows[j].stopId)] == NewStop(prefix, rows[j])
  {
    var n := |rows| - 1;
    StopsOfLast(prefix, rows);
    if j < n {
      var init := rows[..n];
      NoLaterInInit(rows, init, j);
      LastRowWins(prefix, init, j);
      assert init[j] == rows[j];
      if rows[j].stopId != rows[n].stopId && Prefixed(prefix, rows[j].stopId) == Prefixed(prefix, rows[n].stopId) {
        PrefixedInjective(prefix, rows[j].stopId, rows[n].stopId);
        assert false;
      }
    }
  }

  /** A stop already in the database, as `in_bulk` fetches it. */
  datatype Existing = Existing(commonName: string, lon: real, lat: real, source: Option<nat>)

  /** The stop is new. */
  predicate Creates(existing: map<string, Existing>, s: Stop) {
    s.code !in existing
  }

  /** The stop exists, belongs to this source or to none, and moved or was
      renamed. */
  predicate Updates(existing: map<string, Existing>, source: nat, s: Stop) {
    s.code in existing &&
    (existing[s.code].source == Some(source) || existing[s.code].source.None?) &&
    (existing[s.code].lon != s.lon || existing[s.code].lat != s.lat || existing[s.code].commonName != s.commonName)
  }

  /** The stops of `keys` satisfying `p`, in key order. */
  function Select(t: StopTable, keys: seq<string>, p: Stop -> bool): (r: seq<Stop>)
    requires forall k :: k in keys ==> k in t.entries
    ensures forall s :: s in r ==> p(s) && exists k :: k in keys && t.entries[k] == s
    ensures forall k :: k in keys && p(t.entries[k]) ==> t.entries[k] in r
  {
    if keys == [] then []
    else (if p(t.entries[keys[0]]) then [t.entries[keys[0]]] else []) + Select(t, keys[1..], p)
  }

  /** `stops_to_create`. */
  function ToCreate(t: StopTable, existing: map<string, Existing>): seq<Stop>
    requires WellFormed(t)
  {
    Select(t, t.keys, s => Creates(existing, s))
  }

  /** `stops_to_update`. */
  function ToUpdate(t: StopTable, existing: map<string, Existing>, source: nat): seq<Stop>
    requires WellFormed(t)
  {
    Select(t, t.keys, s => Updates(existing, source, s))
  }

  /** Created and updated stops are apart: a created stop's code is new, an
      updated stop's code exists and belongs to this source or to none, so
      a stop of another source is never updated. */
  lemma Partition(t: StopTable, existing: map<string, Existing>, source: nat)
    requires WellFormed(t)
    ensures forall s :: s in ToCreate(t, existing) ==> s.code !in existing
    ensures forall s :: s in ToUpdate(t, existing, source) ==>
              s.code in existing && existing[s.code].source in {Some(source), None}
    ensures forall s :: s in ToCreate(t, existing) ==> s !in ToUpdate(t, existing, source)
  {
  }

  /** Every stop of the dict is created exactly when its code is new and
      updated exactly when `Updates` holds; the rest are left alone. */
  lemma PartitionComplete(t: StopTable, existing: map<string, Existing>, source: nat, k: string)
    requires WellFormed(t) && k in t.keys
    ensures t.entries[k] in ToCreate(t, existing) <==> k !in existing
    ensures t.entries[k] in ToUpdate(t, existing, source) <==> Updates(existing, source, t.entries[k])
  {
    assert t.entries[k].code == k;
  }

  /** `s.isdigit()`: non-empty and all digits. */
  predicate IsNumeric(s: string) { s != "" && AllDigits(s) }

  /** The admin area a new stop gets, unless regions are skipped: by the
      first three characters of its code when they are digits and such an
      admin area exists (`areaExists`); otherwise, with a region configured
      (neither "" nor "auto"), the region's first admin area, where
      `regionFirstArea` gives None for a missing region. */
  function AdminArea(code: string, regionHandling: string, areaExists: string -> bool,
                     regionFirstArea: string -> Option<Option<string>>): (a: Option<string>)
    ensures regionHandling == "skip" ==> a.None?
    ensures regionHandling != "skip" && IsNumeric(Take(code, 3)) ==>
              (a.Some? <==> areaExists(Take(code, 3))) && (a.Some? ==> a.value == Take(code, 3))
    ensures !IsNumeric(Take(code, 3)) && (regionHandling == "" || regionHandling == "auto") ==> a.None?
    ensures !IsNumeric(Take(code, 3)) && regionHandling !in {"skip", "", "auto"} ==>
              (regionFirstArea(regionHandling).None? ==> a.None?) &&
              (regionFirstArea(regionHandling).Some? ==> a == regionFirstArea(regionHandling).value)
  {
    if regionHandling == "skip" then None
    else
      var prefix := Take(code, 3);
      if IsNumeric(prefix) then (if areaExists(prefix) then Some(prefix) else None)
      else if regionHandling != "" && regionHandling != "auto" then
        match regionFirstArea(regionHandling)
        case None => None
        case Some(first) => first
      else None
  }

  /** The admin-area loop over the new stops, asking about each numeric
      prefix once and remembering the answer in `memo`. */
  method AssignAdminAreas(created: seq<Stop>, regionHandling: string, areaExists: string -> bool,
                          regionFirstArea: string -> Option<Option<string>>)
    returns (areas: seq<Option<string>>, memo: map<string, bool>)
    ensures |areas| == |created|
    ensures forall j :: 0 <= j < |created| ==>
              areas[j] == AdminArea(created[j].code, regionHandling, areaExists, regionFirstArea)
    ensures forall p :: p in memo ==> memo[p] == areaExists(p) && IsNumeric(p)
  {
    areas := [];
    memo := map[];
    if regionHandling == "skip" {
      areas := seq(|created|, j => None);
      return;
    }
    var i := 0;
    while i < |created|
      invariant 0 <= i <= |created| && |areas| == i
      invariant forall j :: 0 <= j < i ==>
                  areas[j] == AdminArea(created[j].code, regionHandling, areaExists, regionFirstArea)
      invariant forall p :: p in memo ==> memo[p] == areaExists(p) && IsNumeric(p)
    {
      var prefix := Take(created[i].code, 3);
      var area: Option<string> := None;
      if IsNumeric(prefix) {
        if prefix !in memo {
          memo := memo[prefix := areaExists(prefix)];
        }
        if memo[prefix] {
          area := Some(prefix);
        }
      } else if regionHandling != "" && regionHandling != "auto" {
        var first := regionFirstArea(regionHandling);
        if first.Some? {
          area := first.value;
        }
      }
      areas := areas + [area];
      i := i + 1;
    }
  }

  /** A stop prefix with a non-digit among its first three characters
      (the generated one, lower-cased source name and "-", always has one
      unless the name starts with three digits) rules out the numeric
      branch: in "auto" mode no new stop gets an admin area. */
  lemma PrefixBlocksNumericArea(prefix: string, stopId: string, areaExists: string -> bool,
                                regionFirstArea: string -> Option<Option<string>>, k: nat)
    requires k < 3 && k < |prefix| && !IsDigit(prefix[k])
    ensures !IsNumeric(Take(Prefixed(prefix, stopId), 3))
    ensures AdminArea(Prefixed(prefix, stopId), "auto", areaExists, regionFirstArea).None?
  {
    var code := Prefixed(prefix, stopId);
    assert code[k] == prefix[k];
    assert Take(code, 3)[k] == code[k];
  }
}
