/** The Rentor live-vehicles adapter of vehicles/management/commands/import_rentor.py:
    how a radar item names its vehicle, its position and its journey, and
    which vehicle it is matched to. Every vehicle it creates belongs to
    operator "THRA". `float()` is the parameter `parseFloat`. */
module Rentor {
  import opened Wrappers
  import opened Text
  import opened RadarItem

  const OperatorId := "THRA"

  /** `item.get(key)` is truthy. */
  predicate Has(item: Item, key: string) { key in item && item[key] != "" }

  /** `get_vehicle_identity`: Name when it is non-empty, else UniqueName
      (None when that key is missing too). */
  function VehicleIdentity(item: Item): (id: Option<string>)
    ensures Has(item, "Name") ==> id == Some(item["Name"])
    ensures !Has(item, "Name") && "UniqueName" in item ==> id == Some(item["UniqueName"])
    ensures id.None? <==> !Has(item, "Name") && "UniqueName" !in item
  {
    if Has(item, "Name") then Some(item["Name"])
    else if "UniqueName" in item then Some(item["UniqueName"])
    else None
  }

  /** `get_item_identity`: the Points string when the key is present (even
      when empty), else UniqueName or "". */
  function ItemIdentity(item: Item): (id: string)
    ensures "Points" in item ==> id == item["Points"]
    ensures "Points" !in item ==> id == Get(item, "UniqueName", "")
  {
    if "Points" in item then item["Points"] else Get(item, "UniqueName", "")
  }

  /** `get_journey_identity`: (Loco, "forward", Simulator), "" for missing
      keys. */
  function JourneyIdentity(item: Item): (id: (string, string, string))
    ensures id.1 == "forward"
    ensures id.0 == Get(item, "Loco", "") && id.2 == Get(item, "Simulator", "")
  {
    (Get(item, "Loco", ""), "forward", Get(item, "Simulator", ""))
  }

  /** A vehicle row as the adapter sees it. */
  datatype RentorVehicle = RentorVehicle(
    source: string,
    operatorId: Option<string>,
    code: Option<string>,
    name: string,
    notes: string)

  /** The vehicle `get_vehicle` creates: source, operator "THRA" and code
      always; the name only when the item has a Loco key, the notes
      "Speed: <Speed>" only when it has a Speed key (the columns default to
      "" otherwise). */
  function NewVehicle(item: Item, source: string): (v: RentorVehicle)
    ensures v.source == source && v.operatorId == Some(OperatorId) && v.code == VehicleIdentity(item)
    ensures "Loco" in item ==> v.name == item["Loco"]
    ensures "Loco" !in item ==> v.name == ""
    ensures "Speed" in item ==> v.notes == "Speed: " + item["Speed"] && StartsWith(v.notes, "Speed: ")
    ensures "Speed" !in item ==> v.notes == ""
  {
    RentorVehicle(
      source,
      Some(OperatorId),
      VehicleIdentity(item),
      if "Loco" in item then item["Loco"] else "",
      if "Speed" in item then "Speed: " + item["Speed"] else "")
  }

  /** The vehicles `get_vehicle` searches: operator THRA or this source. */
  predicate InScope(v: RentorVehicle, source: string) {
    v.operatorId == Some(OperatorId) || v.source == source
  }

  /** The first vehicle in scope whose code matches. */
  function FindVehicle(vs: seq<RentorVehicle>, source: string, code: Option<string>, i: nat): (r: Option<nat>)
    requires i <= |vs|
    ensures r.Some? ==> i <= r.value < |vs| && InScope(vs[r.value], source) && CodeMatches(vs[r.value].code, code)
    ensures r.Some? ==> forall k :: i <= k < r.value ==> !(InScope(vs[k], source) && CodeMatches(vs[k].code, code))
    ensures r.None? ==> forall k :: i <= k < |vs| ==> !(InScope(vs[k], source) && CodeMatches(vs[k].code, code))
    decreases |vs| - i
  {
    if i == |vs| then None
    else if InScope(vs[i], source) && CodeMatches(vs[i].code, code) then Some(i)
    else FindVehicle(vs, source, code, i + 1)
  }

  /** `get_vehicle` on the vehicles table: the new table, the position of
      the vehicle and whether it was created. The matched vehicle is the
      first in scope with a case-insensitively equal code; only when there
      is none is a vehicle created (the `get_or_create` on the exact code
      cannot find one the case-insensitive search missed). */
  function GetVehicle(vs: seq<RentorVehicle>, item: Item, source: string): (r: (seq<RentorVehicle>, nat, bool))
    ensures r.1 < |r.0| && InScope(r.0[r.1], source) && CodeMatches(r.0[r.1].code, VehicleIdentity(item))
    ensures r.2 <==> FindVehicle(vs, source, VehicleIdentity(item), 0).None?
    ensures r.2 ==> r.0 == vs + [NewVehicle(item, source)] && r.1 == |vs|
    ensures !r.2 ==> r.0 == vs
  {
    var code := VehicleIdentity(item);
    match FindVehicle(vs, source, code, 0)
    case Some(k) => (vs, k, false)
    case None =>
      var v := NewVehicle(item, source);
      assert CodeMatches(v.code, code) by {
        if code.Some? { assert Upper(code.value) == Upper(code.value); }
      }
      (vs + [v], |vs|, true)
  }

  /** Asking twice for the same item finds the vehicle created the first
      time. */
  lemma GetVehicleStable(vs: seq<RentorVehicle>, item: Item, source: string)
    ensures var (vs1, k1, _) := GetVehicle(vs, item, source);
            var (vs2, k2, created) := GetVehicle(vs1, item, source);
            vs2 == vs1 && !created && k2 <= k1
  {
    var (vs1, k1, c1) := GetVehicle(vs, item, source);
    var code := VehicleIdentity(item);
    assert InScope(vs1[k1], source) && CodeMatches(vs1[k1].code, code);
    var found := FindVehicle(vs1, source, code, 0);
    assert found.Some?;
  }

  /** A journey as `get_journey` builds it: no service or trip. */
  datatype RentorJourney = RentorJourney(routeName: string, direction: string, destination: string)

  /** `get_journey`: route name Loco and destination Simulator, each
      "Unknown" only when the key is missing. */
  function GetJourney(item: Item): (j: RentorJourney)
    ensures j.direction == "forward"
    ensures "Loco" in item ==> j.routeName == item["Loco"]
    ensures "Loco" !in item ==> j.routeName == "Unknown"
    ensures "Simulator" in item ==> j.destination == item["Simulator"]
    ensures "Simulator" !in item ==> j.destination == "Unknown"
  {
    RentorJourney(Get(item, "Loco", "Unknown"), "forward", Get(item, "Simulator", "Unknown"))
  }

  /** What `create_vehicle_location` gives: no location, a location with
      the item's heading, or the ValueError `float` raises (not caught). */
  datatype LocationResult = NoLocation | Location(latlong: Point, heading: Option<string>) | BadNumber

  /** `create_vehicle_location`: "longitude,latitude" split at ','; no
      location without Points or with other than two parts; no range
      check. */
  function CreateVehicleLocation(item: Item, parseFloat: string -> Option<real>): (r: LocationResult)
    ensures r.NoLocation? <==> "Points" !in item || |Split(item["Points"], ',')| != 2
    ensures r.Location? ==>
      var parts := Split(item["Points"], ',');
      parseFloat(parts[0]) == Some(r.latlong.x) && parseFloat(parts[1]) == Some(r.latlong.y)
    ensures r.Location? ==> r.heading == (if "heading" in item then Some(item["heading"]) else None)
    ensures r.BadNumber? <==>
              ("Points" in item && |Split(item["Points"], ',')| == 2 &&
               (parseFloat(Split(item["Points"], ',')[0]).None? || parseFloat(Split(item["Points"], ',')[1]).None?))
  {
    if "Points" !in item then NoLocation
    else
      var coords := Split(item["Points"], ',');
      if |coords| != 2 then NoLocation
      else
        match (parseFloat(coords[0]), parseFloat(coords[1]))
        case (Some(lng), Some(lat)) =>
          Location(Point(lng, lat), if "heading" in item then Some(item["heading"]) else None)
        case _ => BadNumber
  }

  /** "lng,lat" gives the point (lng, lat), whatever its range. */
  lemma LocationOrder(item: Item, a: string, b: string, lng: real, lat: real, parseFloat: string -> Option<real>)
    requires "Points" in item && item["Points"] == a + "," + b
    requires ',' !in a && ',' !in b
    requires parseFloat(a) == Some(lng) && parseFloat(b) == Some(lat)
    ensures CreateVehicleLocation(item, parseFloat).Location?
    ensures CreateVehicleLocation(item, parseFloat).latlong == Point(lng, lat)
  {
    assert a + "," + b == a + [','] + b;
    SplitTwo(a, b, ',');
  }
}
