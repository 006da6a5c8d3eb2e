/** The import loop of vehicles/management/commands/import_vehicles.py: every
    record of the bustimes.org API is turned into the fields of a vehicle of
    the chosen operator, then either updates the one vehicle of that
    operator whose code matches case-insensitively or creates a new one.
    The whole import is one transaction: a code matching two vehicles, or
    a numeric slug in TMSB format, raises, and nothing is kept. */
module VehicleImport {
  import opened Wrappers
  import opened Text
  import opened VehicleCodes

  /** The fields of a vehicle row that the import writes. */
  datatype Vehicle = Vehicle(
    operator: string,
    code: Option<string>,
    fleetNumber: Option<string>,
    fleetCode: Option<string>,
    reg: string,
    name: string,
    branding: string,
    notes: string,
    withdrawn: bool)

  /** One API record: the fields choosing its code, and the others copied
      (with the defaults of `dict.get` for missing keys). */
  datatype ApiVehicle = ApiVehicle(
    data: VehicleData,
    fleetCode: Option<string>,
    name: string,
    branding: string,
    notes: string,
    withdrawn: bool)

  /** The vehicle fields built from a record (the `defaults` dict), or
      None when choosing its code raises. */
  function Defaults(rec: ApiVehicle, operator: string, useReg: bool, tmsb: bool): (v: Option<Vehicle>)
    ensures v.None? <==> SelectCode(rec.data, useReg, tmsb).Raises?
    ensures v.Some? ==> v.value.operator == operator && v.value.code == SelectCode(rec.data, useReg, tmsb).code
    ensures v.Some? ==>
              (v.value.fleetNumber.Some? <==> Truthy(rec.data.fleetNumber)) &&
              (Truthy(rec.data.fleetNumber) ==>
                 v.value.fleetNumber == Some(NormalizeFleetNumber(AsText(rec.data.fleetNumber))))
    ensures v.Some? && Truthy(rec.data.reg) ==> v.value.reg == NormalizeRegistration(AsText(rec.data.reg), tmsb)
    ensures v.Some? && !Truthy(rec.data.reg) ==> v.value.reg == ""
  {
    match SelectCode(rec.data, useReg, tmsb)
    case Raises => None
    case Chosen(code) =>
      Some(Vehicle(
        operator,
        code,
        if Truthy(rec.data.fleetNumber) then Some(NormalizeFleetNumber(AsText(rec.data.fleetNumber))) else None,
        rec.fleetCode,
        if Truthy(rec.data.reg) then NormalizeRegistration(AsText(rec.data.reg), tmsb) else "",
        rec.name,
        rec.branding,
        rec.notes,
        rec.withdrawn))
  }

  predicate IsMatch(v: Vehicle, operator: string, code: Option<string>) {
    v.operator == operator && CodeMatches(v.code, code)
  }

  /** The positions of the vehicles `Vehicle.objects.get` would see, in
      increasing order. */
  function Matching(store: seq<Vehicle>, operator: string, code: Option<string>): (r: seq<nat>)
    ensures forall j :: 0 <= j < |r| ==> r[j] < |store| && IsMatch(store[r[j]], operator, code)
    ensures forall k :: 0 <= k < |store| && IsMatch(store[k], operator, code) ==> k in r
    ensures forall j, l :: 0 <= j < l < |r| ==> r[j] < r[l]
  {
    if |store| == 0 then []
    else
      var r := Matching(store[..|store| - 1], operator, code);
      if IsMatch(store[|store| - 1], operator, code) then r + [|store| - 1] else r
  }

  /** The result of one record: the new table and whether it created a
      vehicle; None where choosing the code raises or the code matches more
      than one vehicle. */
  function Step(store: seq<Vehicle>, rec: ApiVehicle, operator: string, useReg: bool, tmsb: bool)
    : Option<(seq<Vehicle>, bool)>
  {
    match Defaults(rec, operator, useReg, tmsb)
    case None => None
    case Some(v) => Place(store, v, operator)
  }

  /** `update_or_create` of the fields `v`: the one matching vehicle is
      replaced, or `v` is appended when none matches. */
  function Place(store: seq<Vehicle>, v: Vehicle, operator: string): Option<(seq<Vehicle>, bool)> {
    var hits := Matching(store, operator, v.code);
    if |hits| == 0 then Some((store + [v], true))
    else if |hits| == 1 then Some((store[hits[0] := v], false))
    else None
  }

  /** The state after one more record: the table and the created and
      updated counts, or None once some record has failed. */
  function Next(acc: Option<(seq<Vehicle>, nat, nat)>, rec: ApiVehicle, operator: string, useReg: bool, tmsb: bool)
    : Option<(seq<Vehicle>, nat, nat)>
  {
    match acc
    case None => None
    case Some((s, c, u)) =>
      match Step(s, rec, operator, useReg, tmsb)
      case None => None
      case Some((s', created)) => Some((s', if created then c + 1 else c, if created then u else u + 1))
  }

  /** The import of `recs` in order, from `store`. */
  function ImportAll(store: seq<Vehicle>, recs: seq<ApiVehicle>, operator: string, useReg: bool, tmsb: bool)
    : Option<(seq<Vehicle>, nat, nat)>
  {
    if |recs| == 0 then Some((store, 0, 0))
    else Next(ImportAll(store, recs[..|recs| - 1], operator, useReg, tmsb), recs[|recs| - 1], operator, useReg, tmsb)
  }

  /** Every record of a successful import is counted exactly once, as
      created or as updated. */
  lemma {:induction false} ImportCounts(store: seq<Vehicle>, recs: seq<ApiVehicle>, operator: string, useReg: bool, tmsb: bool)
    requires ImportAll(store, recs, operator, useReg, tmsb).Some?
    ensures var r := ImportAll(store, recs, operator, useReg, tmsb).value;
            r.1 + r.2 == |recs| && |r.0| == |store| + r.1
  {
    if |recs| > 0 {
      var init := recs[..|recs| - 1];
      ImportCounts(store, init, operator, useReg, tmsb);
      var prev := ImportAll(store, init, operator, useReg, tmsb).value.0;
      StepSize(prev, recs[|recs| - 1], operator, useReg, tmsb);
    }
  }

  /** One record adds a vehicle exactly when it creates one. */
  lemma StepSize(store: seq<Vehicle>, rec: ApiVehicle, operator: string, useReg: bool, tmsb: bool)
    requires Step(store, rec, operator, useReg, tmsb).Some?
    ensures var r := Step(store, rec, operator, useReg, tmsb).value;
            |r.0| == |store| + (if r.1 then 1 else 0)
  {
  }

  /** The import only ever touches vehicles of its own operator: every
      other vehicle keeps its place and its fields, and vehicles are only
      added, never removed. */
  lemma {:induction false} ImportKeepsOthers(store: seq<Vehicle>, recs: seq<ApiVehicle>, operator: string, useReg: bool, tmsb: bool)
    requires ImportAll(store, recs, operator, useReg, tmsb).Some?
    ensures var s := ImportAll(store, recs, operator, useReg, tmsb).value.0;
            |store| <= |s| &&
            (forall k :: 0 <= k < |store| && store[k].operator != operator ==> s[k] == store[k]) &&
            (forall k :: |store| <= k < |s| ==> s[k].operator == operator)
  {
    if |recs| > 0 {
      var init := recs[..|recs| - 1];
      ImportKeepsOthers(store, init, operator, useReg, tmsb);
      ImportLast(store, recs, operator, useReg, tmsb);
      var prev := ImportAll(store, init, operator, useReg, tmsb).value.0;
      StepKeepsOthers(prev, recs[|recs| - 1], operator, useReg, tmsb);
    }
  }

  /** A successful import is a successful import of all but the last
      record, then a successful step for the last one. */
  lemma ImportLast(store: seq<Vehicle>, recs: seq<ApiVehicle>, operator: string, useReg: bool, tmsb: bool)
    requires |recs| > 0 && ImportAll(store, recs, operator, useReg, tmsb).Some?
    ensures var prev := ImportAll(store, recs[..|recs| - 1], operator, useReg, tmsb);
            prev.Some? && Step(prev.value.0, recs[|recs| - 1], operator, useReg, tmsb).Some? &&
            ImportAll(store, recs, operator, useReg, tmsb).value.0 == Step(prev.value.0, recs[|recs| - 1], operator, useReg, tmsb).value.0
  {
  }

  /** One record, through its defaults, changes or adds only a vehicle of
      the operator. */
  lemma StepKeepsOthers(store: seq<Vehicle>, rec: ApiVehicle, operator: string, useReg: bool, tmsb: bool)
    requires Step(store, rec, operator, useReg, tmsb).Some?
    ensures var s := Step(store, rec, operator, useReg, tmsb).value.0;
            |store| <= |s| &&
            (forall k :: 0 <= k < |store| && store[k].operator != operator ==> s[k] == store[k]) &&
            (forall k :: 0 <= k < |store| ==> s[k] == store[k] || s[k].operator == operator) &&
            (forall k :: |store| <= k < |s| ==> s[k].operator == operator)
  {
    PlaceKeepsOthers(store, Defaults(rec, operator, useReg, tmsb).value, operator);
  }

  /** One record changes or adds only a vehicle of the operator. */
  lemma PlaceKeepsOthers(store: seq<Vehicle>, v: Vehicle, operator: string)
    requires v.operator == operator && Place(store, v, operator).Some?
    ensures var s := Place(store, v, operator).value.0;
            |store| <= |s| &&
            (forall k :: 0 <= k < |store| && store[k].operator != operator ==> s[k] == store[k]) &&
            (forall k :: 0 <= k < |store| ==> s[k] == store[k] || s[k].operator == operator) &&
            (forall k :: |store| <= k < |s| ==> s[k].operator == operator)
  {
    var hits := Matching(store, operator, v.code);
    if |hits| == 1 {
      assert IsMatch(store[hits[0]], operator, v.code);
    }
  }

  /** After a successful import no record's code raised, and every
      record can be found again: some vehicle of the operator matches its
      code. */
  lemma {:induction false} ImportFindable(store: seq<Vehicle>, recs: seq<ApiVehicle>, operator: string, useReg: bool, tmsb: bool)
    requires ImportAll(store, recs, operator, useReg, tmsb).Some?
    ensures var s := ImportAll(store, recs, operator, useReg, tmsb).value.0;
            forall i :: 0 <= i < |recs| ==>
              SelectCode(recs[i].data, useReg, tmsb).Chosen? &&
              exists k :: 0 <= k < |s| && IsMatch(s[k], operator, SelectCode(recs[i].data, useReg, tmsb).code)
  {
    if |recs| > 0 {
      var init := recs[..|recs| - 1];
      ImportFindable(store, init, operator, useReg, tmsb);
      var prev := ImportAll(store, init, operator, useReg, tmsb).value.0;
      var v := Defaults(recs[|recs| - 1], operator, useReg, tmsb).value;
      var hits := Matching(prev, operator, v.code);
      var s := ImportAll(store, recs, operator, useReg, tmsb).value.0;
      forall i | 0 <= i < |recs|
        ensures SelectCode(recs[i].data, useReg, tmsb).Chosen? &&
                exists k :: 0 <= k < |s| && IsMatch(s[k], operator, SelectCode(recs[i].data, useReg, tmsb).code)
      {
        if i < |recs| - 1 {
          assert recs[i] == init[i];
        }
        var c := SelectCode(recs[i].data, useReg, tmsb).code;
        if i == |recs| - 1 {
          if |hits| == 0 {
            assert IsMatch(s[|prev|], operator, c);
          } else {
            assert IsMatch(s[hits[0]], operator, c);
          }
        } else {
          var k :| 0 <= k < |prev| && IsMatch(prev[k], operator, c);
          if |hits| == 0 {
            assert s[k] == prev[k];
          } else if k == hits[0] {
            assert IsMatch(prev[k], operator, v.code);
            assert IsMatch(s[k], operator, c);
          } else {
            assert s[k] == prev[k];
          }
        }
      }
    }
  }

  /** The import of one more record is one more `Next`. */
  lemma ImportAllExtend(store: seq<Vehicle>, recs: seq<ApiVehicle>, i: nat, operator: string, useReg: bool, tmsb: bool)
    requires i < |recs|
    ensures ImportAll(store, recs[..i + 1], operator, useReg, tmsb) ==
            Next(ImportAll(store, recs[..i], operator, useReg, tmsb), recs[i], operator, useReg, tmsb)
  {
    assert recs[..i + 1][..i] == recs[..i];
    assert recs[..i + 1][i] == recs[i];
  }

  /** Once a record fails, the whole import fails. */
  lemma {:induction false} FailureSticks(store: seq<Vehicle>, recs: seq<ApiVehicle>, n: nat, operator: string, useReg: bool, tmsb: bool)
    requires n <= |recs| && ImportAll(store, recs[..n], operator, useReg, tmsb).None?
    ensures ImportAll(store, recs, operator, useReg, tmsb).None?
    decreases |recs| - n
  {
    if n < |recs| {
      assert recs[..n + 1][..n] == recs[..n];
      FailureSticks(store, recs, n + 1, operator, useReg, tmsb);
    } else {
      assert recs[..n] == recs;
    }
  }

  /** The vehicles table. */
  class VehicleTable {
    var vehicles: seq<Vehicle>

    constructor (initial: seq<Vehicle>)
      ensures vehicles == initial
    {
      vehicles := initial;
    }

    /** `import_vehicles` over the fetched records: on success the table
        and the counts are those of `ImportAll`; on failure the
        transaction is rolled back and the table is unchanged. */
    method ImportVehicles(recs: seq<ApiVehicle>, operator: string, useReg: bool, tmsb: bool)
      returns (ok: bool, created: nat, updated: nat)
      modifies this
      ensures ok <==> ImportAll(old(vehicles), recs, operator, useReg, tmsb).Some?
      ensures ok ==> ImportAll(old(vehicles), recs, operator, useReg, tmsb) == Some((vehicles, created, updated))
      ensures !ok ==> vehicles == old(vehicles)
    {
      var start := vehicles;
      var table := start;
      created, updated := 0, 0;
      var i := 0;
      assert recs[..0] == [];
      assert ImportAll(start, recs[..0], operator, useReg, tmsb) == Some((start, 0, 0));
      while i < |recs|
        invariant 0 <= i <= |recs| && vehicles == start
        invariant ImportAll(start, recs[..i], operator, useReg, tmsb) == Some((table, created, updated))
      {
        ImportAllExtend(start, recs, i, operator, useReg, tmsb);
        var acc := Next(Some((table, created, updated)), recs[i], operator, useReg, tmsb);
        if acc.None? {
          FailureSticks(start, recs, i + 1, operator, useReg, tmsb);
          return false, 0, 0;
        }
        table, created, updated := acc.value.0, acc.value.1, acc.value.2;
        i := i + 1;
      }
      assert recs[..i] == recs;
      vehicles := table;
      ok := true;
    }
  }
}
