/** The ThirdRails importer of vehicles/management/commands/import_thirdrails.py:
    the coordinate and speed parsers, the simulator-to-operator naming, the
    fields of a new vehicle and of a new journey, and the `import_data`
    loop that skips an item whose Points have not changed since the
    vehicle's latest journey. `float()` is the parameter `parseFloat`. */
module ThirdRails {
  import opened Wrappers
  import opened Text
  import opened RadarItem

  /** `parse_coordinates`: a "longitude,latitude" string. None unless it
      splits at ',' into exactly two parts that both parse and fall in the
      inclusive ranges [-180, 180] and [-90, 90]; an empty string has a
      single part. */
  function ParseCoordinates(points: string, parseFloat: string -> Option<real>): (r: Option<Point>)
    ensures r.Some? <==>
      var parts := Split(points, ',');
      |parts| == 2 && parseFloat(Strip(parts[0])).Some? && parseFloat(Strip(parts[1])).Some?
      && -180.0 <= parseFloat(Strip(parts[0])).value <= 180.0
      && -90.0 <= parseFloat(Strip(parts[1])).value <= 90.0
    ensures r.Some? ==>
      r.value.x == parseFloat(Strip(Split(points, ',')[0])).value &&
      r.value.y == parseFloat(Strip(Split(points, ',')[1])).value
    ensures points == "" ==> r.None?
  {
    if points == "" then None
    else
      var coords := Split(points, ',');
      if |coords| != 2 then None
      else
        match (parseFloat(Strip(coords[0])), parseFloat(Strip(coords[1])))
        case (Some(lng), Some(lat)) =>
          if -180.0 <= lng <= 180.0 && -90.0 <= lat <= 90.0 then Some(Point(lng, lat)) else None
        case _ => None
  }

  /** "lng,lat" reads back as the point (lng, lat): the first field is the
      longitude, and a point inside the ranges is accepted, one outside is
      not. */
  lemma CoordinatesOrder(a: string, b: string, lng: real, lat: real, parseFloat: string -> Option<real>)
    requires ',' !in a && ',' !in b
    requires parseFloat(Strip(a)) == Some(lng) && parseFloat(Strip(b)) == Some(lat)
    ensures ParseCoordinates(a + "," + b, parseFloat) ==
            (if -180.0 <= lng <= 180.0 && -90.0 <= lat <= 90.0 then Some(Point(lng, lat)) else None)
  {
    var s := a + "," + b;
    assert s == a + [','] + b;
    SplitTwo(a, b, ',');
    var parts := Split(s, ',');
    assert |parts| == 2 && parts[0] == a && parts[1] == b;
    assert s != "" by { assert |s| == |a| + 1 + |b|; }
  }

  /** Three or more comma-separated fields never give a point. */
  lemma CoordinatesTooMany(a: string, b: string, c: string, parseFloat: string -> Option<real>)
    requires ',' !in a && ',' !in b && ',' !in c
    ensures ParseCoordinates(a + "," + b + "," + c, parseFloat).None?
  {
    SplitThree(a, b, c, ',');
  }

  /** The position of the first digit at or after `i` (|s| when none). */
  function FirstDigit(s: string, i: nat): (r: nat)
    requires i <= |s|
    ensures i <= r <= |s|
    ensures r < |s| ==> IsDigit(s[r])
    ensures forall j :: i <= j < r ==> !IsDigit(s[j])
    decreases |s| - i
  {
    if i == |s| || IsDigit(s[i]) then i else FirstDigit(s, i + 1)
  }

  /** The digits of a run of digits. */
  lemma RunDigits(s: string, i: nat)
    requires i <= |s|
    ensures AllDigits(s[i..RunEnd(s, i, Digits)])
  {
    var e := RunEnd(s, i, Digits);
    forall j | 0 <= j < e - i ensures IsDigit(s[i..e][j]) {
      assert s[i..e][j] == s[i + j];
      assert InClass(s[i + j], Digits);
    }
  }

  /** `parse_speed`: the value of the first run of digits, 0 when there is
      none (so also for ""). */
  function ParseSpeed(text: string): (n: nat)
    ensures (forall j :: 0 <= j < |text| ==> !IsDigit(text[j])) ==> n == 0
  {
    if text == "" then 0
    else
      var i := FirstDigit(text, 0);
      if i == |text| then 0
      else
        RunDigits(text, i);
        DecimalValue(text[i..RunEnd(text, i, Digits)])
  }

  /** The speed is the value of the first run of digits: text without
      digits, then digits, then anything that does not start with a digit
      gives the value of those digits. */
  lemma SpeedOfFirstRun(p: string, d: string, t: string)
    requires forall j :: 0 <= j < |p| ==> !IsDigit(p[j])
    requires |d| > 0 && AllDigits(d) && (t == [] || !IsDigit(t[0]))
    ensures ParseSpeed(p + d + t) == DecimalValue(d)
  {
    var s := p + d + t;
    var e := |p| + |d|;
    assert s[..|p|] == p && s[|p|..e] == d && s[e..] == t;
    assert s[|p|] == d[0];
    FirstDigitAfter(s, p);
    assert forall j :: |p| <= j < e ==> s[j] == d[j - |p|];
    assert e < |s| ==> s[e] == t[0];
    RunOfDigits(s, e, |p|);
  }

  /** The first digit of a text that starts with digit-free `p` and then
      has a digit is right after `p`. */
  lemma FirstDigitAfter(s: string, p: string)
    requires |p| < |s| && s[..|p|] == p && IsDigit(s[|p|])
    requires forall j :: 0 <= j < |p| ==> !IsDigit(p[j])
    ensures FirstDigit(s, 0) == |p|
  {
    assert forall j :: 0 <= j < |p| ==> s[j] == p[j];
  }

  /** The run of digits from `i` ends at `e` when all of `s[i..e]` are
      digits and `s[e]` is not one. */
  lemma {:induction false} RunOfDigits(s: string, e: nat, i: nat)
    requires i <= e <= |s|
    requires forall j :: i <= j < e ==> IsDigit(s[j])
    requires e == |s| || !IsDigit(s[e])
    ensures RunEnd(s, i, Digits) == e
    decreases e - i
  {
    if i < e {
      RunOfDigits(s, e, i + 1);
    }
  }

  lemma SpeedExample(s: string)
    requires s == "103 km/h"
    ensures ParseSpeed(s) == 103
  {
    assert s == "" + "103" + " km/h";
    SpeedOfFirstRun("", "103", " km/h");
    assert "103"[..2] == "10" && "10"[..1] == "1" && "1"[..0] == "";
  }

  /** The name and slug of the operator for a simulator. */
  datatype OperatorNaming = OperatorNaming(name: string, slug: string)

  /** `get_or_create_operator` naming: TSW and TSC have fixed names and
      slugs; any other simulator names its operator, with the slug
      lower-cased and spaces turned to '-'. A slug never holds a space or a
      capital. */
  function OperatorFor(simulator: string): (r: OperatorNaming)
    ensures simulator == "TSW" ==> r == OperatorNaming("Train Sim World", "train-sim-world")
    ensures simulator == "TSC" ==> r == OperatorNaming("Train Sim Classic", "train-sim-classic")
    ensures simulator != "TSW" && simulator != "TSC" ==> r.name == simulator && |r.slug| == |simulator|
    ensures simulator != "TSW" && simulator != "TSC" ==>
              forall j :: 0 <= j < |simulator| ==>
                r.slug[j] == (if simulator[j] == ' ' then '-' else LowerChar(simulator[j]))
    ensures forall j :: 0 <= j < |r.slug| ==> r.slug[j] != ' ' && !IsUpper(r.slug[j])
  {
    if simulator == "TSW" then OperatorNaming("Train Sim World", "train-sim-world")
    else if simulator == "TSC" then OperatorNaming("Train Sim Classic", "train-sim-classic")
    else OperatorNaming(simulator, ReplaceChar(Lower(simulator), ' ', '-'))
  }

  /** An operator row: name, slug, region and vehicle mode. */
  datatype OperatorRow = OperatorRow(name: string, slug: string, region: Option<string>, mode: string)

  /** A vehicle row as the importer reads and writes it; `thirdRailsId` is
      `data["thirdrails_id"]` (None where the vehicle has no such entry). */
  datatype RadarVehicle = RadarVehicle(
    code: string,
    name: string,
    operator: nat,
    thirdRailsId: Option<string>,
    loco: string,
    simulator: string,
    routeName: string,
    latestJourney: Option<nat>,
    latestData: Option<Item>)

  /** A vehicle journey row and its `data` fields. */
  datatype RadarJourney = RadarJourney(
    datetime: int,
    routeName: string,
    destination: string,
    vehicle: nat,
    simulator: string,
    loco: string,
    speed: string,
    driveType: string,
    announcement: string,
    announcementType: string,
    lng: real,
    lat: real,
    speedKmh: nat)

  /** The vehicle `get_or_create_vehicle` creates for an item with a unique
      name: code and name cut to 50 and 255 characters, the name taken
      from Loco when that is non-empty and from Name otherwise. */
  function NewVehicle(item: Item, operator: nat): (v: Option<RadarVehicle>)
    ensures v.None? <==> Get(item, "UniqueName", "") == ""
    ensures v.Some? ==>
      var un := Get(item, "UniqueName", "");
      var loco := Get(item, "Loco", "");
      |v.value.code| <= 50 && StartsWith(un, v.value.code) && (|un| >= 50 ==> |v.value.code| == 50) &&
      |v.value.name| <= 255 &&
      (loco != "" ==> StartsWith(loco, v.value.name)) &&
      (loco == "" ==> StartsWith(Get(item, "Name", ""), v.value.name)) &&
      v.value.thirdRailsId == Some(un) && v.value.operator == operator &&
      v.value.latestJourney.None? && v.value.latestData.None?
    ensures v.Some? ==>
      var un := Get(item, "UniqueName", "");
      var loco := Get(item, "Loco", "");
      v.value.code == Take(un, 50) &&
      v.value.name == Take(if loco != "" then loco else Get(item, "Name", ""), 255) &&
      v.value.loco == loco && v.value.simulator == Get(item, "Simulator", "") &&
      v.value.routeName == Get(item, "Name", "")
  {
    var un := Get(item, "UniqueName", "");
    if un == "" then None
    else
      var loco := Get(item, "Loco", "");
      var name := Get(item, "Name", "");
      Some(RadarVehicle(
        Take(un, 50),
        if loco != "" then Take(loco, 255) else Take(name, 255),
        operator,
        Some(un),
        loco,
        Get(item, "Simulator", ""),
        name,
        None,
        None))
  }

  /** The journey `create_vehicle_journey` creates: none when the Points do
      not parse; otherwise route name and destination are the item's Name
      cut to 64 and 255 characters, and the coordinates and speed are the
      parsed ones. */
  function NewJourney(item: Item, vehicle: nat, now: int, parseFloat: string -> Option<real>): (j: Option<RadarJourney>)
    ensures j.None? <==> ParseCoordinates(Get(item, "Points", ""), parseFloat).None?
    ensures j.Some? ==>
      var p := ParseCoordinates(Get(item, "Points", ""), parseFloat).value;
      |j.value.routeName| <= 64 && |j.value.destination| <= 255 &&
      StartsWith(Get(item, "Name", ""), j.value.routeName) &&
      StartsWith(Get(item, "Name", ""), j.value.destination) &&
      j.value.lng == p.x && j.value.lat == p.y && j.value.vehicle == vehicle &&
      j.value.speedKmh == ParseSpeed(Get(item, "Speed", ""))
    ensures j.Some? ==>
      var name := Get(item, "Name", "");
      j.value.routeName == Take(name, 64) && j.value.destination == Take(name, 255) &&
      j.value.datetime == now && j.value.simulator == Get(item, "Simulator", "") &&
      j.value.loco == Get(item, "Loco", "") && j.value.speed == Get(item, "Speed", "")
  {
    match ParseCoordinates(Get(item, "Points", ""), parseFloat)
    case None => None
    case Some(p) =>
      var name := Get(item, "Name", "");
      Some(RadarJourney(
        now,
        if name != "" then Take(name, 64) else "",
        if name != "" then Take(name, 255) else "",
        vehicle,
        Get(item, "Simulator", ""),
        Get(item, "Loco", ""),
        Get(item, "Speed", ""),
        Get(item, "DriveType", ""),
        Get(item, "Announcement", ""),
        Get(item, "AnnouncementType", ""),
        p.x,
        p.y,
        ParseSpeed(Get(item, "Speed", ""))))
  }

  /** The decoded body of the radar response. */
  datatype Response = Many(items: seq<Item>) | One(item: Item)

  /** `fetch_data`: a single object is wrapped into a one-element list. */
  function Records(r: Response): (items: seq<Item>)
    ensures r.One? ==> items == [r.item]
    ensures r.Many? ==> items == r.items
  {
    match r
    case Many(items) => items
    case One(item) => [item]
  }

  /** The tables the importer touches. */
  datatype Store = Store(operators: seq<OperatorRow>, vehicles: seq<RadarVehicle>, journeys: seq<RadarJourney>)

  /** The first vehicle whose `data["thirdrails_id"]` is `un`. */
  function FindVehicle(vs: seq<RadarVehicle>, un: string): (r: Option<nat>)
    ensures r.Some? ==> r.value < |vs| && vs[r.value].thirdRailsId == Some(un)
    ensures r.Some? ==> forall k :: 0 <= k < r.value ==> vs[k].thirdRailsId != Some(un)
    ensures r.None? ==> forall k :: 0 <= k < |vs| ==> vs[k].thirdRailsId != Some(un)
  {
    FindVehicleFrom(vs, un, 0)
  }

  function FindVehicleFrom(vs: seq<RadarVehicle>, un: string, i: nat): (r: Option<nat>)
    requires i <= |vs|
    ensures r.Some? ==> i <= r.value < |vs| && vs[r.value].thirdRailsId == Some(un)
    ensures r.Some? ==> forall k :: i <= k < r.value ==> vs[k].thirdRailsId != Some(un)
    ensures r.None? ==> forall k :: i <= k < |vs| ==> vs[k].thirdRailsId != Some(un)
    decreases |vs| - i
  {
    if i == |vs| then None
    else if vs[i].thirdRailsId == Some(un) then Some(i)
    else FindVehicleFrom(vs, un, i + 1)
  }

  /** What `Operator.objects.get(name=...)` finds: the one operator with
      the name, none, or several (MultipleObjectsReturned). */
  datatype Lookup = Found(k: nat) | NotFound | Several

  /** The lookup of `get_or_create(name=name)`. */
  function FindOperator(ops: seq<OperatorRow>, name: string): (r: Lookup)
    ensures r.Found? ==> r.k < |ops| && ops[r.k].name == name
    ensures r.Found? ==> forall k :: 0 <= k < |ops| && k != r.k ==> ops[k].name != name
    ensures r.NotFound? <==> forall k :: 0 <= k < |ops| ==> ops[k].name != name
    ensures r.Several? ==> exists k, l :: 0 <= k < l < |ops| && ops[k].name == name && ops[l].name == name
  {
    if |ops| == 0 then NotFound
    else
      var prev := FindOperator(ops[..|ops| - 1], name);
      if ops[|ops| - 1].name != name then prev
      else if prev.NotFound? then Found(|ops| - 1)
      else Several
  }

  /** No two operators share a name. */
  predicate DistinctNames(ops: seq<OperatorRow>) {
    forall k, l :: 0 <= k < l < |ops| ==> ops[k].name != ops[l].name
  }

  /** `get_or_create_operator` on a store: the operator's position, and the
      operators table (grown by one when the name is new); None when two
      operators already carry the name, which makes `get_or_create` raise. */
  function OperatorStep(ops: seq<OperatorRow>, simulator: string, gbRegion: Option<string>): (r: Option<(seq<OperatorRow>, nat)>)
    ensures r.None? <==> FindOperator(ops, OperatorFor(simulator).name).Several?
    ensures r.Some? ==> r.value.1 < |r.value.0| && r.value.0[r.value.1].name == OperatorFor(simulator).name
    ensures FindOperator(ops, OperatorFor(simulator).name).Found? ==> r == Some((ops, FindOperator(ops, OperatorFor(simulator).name).k))
    ensures FindOperator(ops, OperatorFor(simulator).name).NotFound? ==>
              r == Some((ops + [OperatorRow(OperatorFor(simulator).name, OperatorFor(simulator).slug, gbRegion, "train")], |ops|))
    ensures r.Some? && DistinctNames(ops) ==> DistinctNames(r.value.0)
  {
    var naming := OperatorFor(simulator);
    match FindOperator(ops, naming.name)
    case Found(k) => Some((ops, k))
    case NotFound => Some((ops + [OperatorRow(naming.name, naming.slug, gbRegion, "train")], |ops|))
    case Several => None
  }

  /** While the names are distinct the lookup never finds several. */
  lemma DistinctNeverSeveral(ops: seq<OperatorRow>, name: string)
    requires DistinctNames(ops)
    ensures !FindOperator(ops, name).Several?
  {
  }

  /** A new vehicle would be needed but its operator's name is carried by
      several operators. */
  predicate OperatorClash(st: Store, item: Item) {
    FindVehicle(st.vehicles, Get(item, "UniqueName", "")).None? &&
    FindOperator(st.operators, OperatorFor(Get(item, "Simulator", "")).name).Several?
  }

  /** `get_or_create_vehicle` on a store, for an item with a unique name:
      the vehicle already carrying that id, or a new one; None when the
      operator lookup raises. */
  function VehicleStep(st: Store, item: Item, gbRegion: Option<string>): (r: Option<(Store, nat)>)
    requires Get(item, "UniqueName", "") != ""
    ensures r.None? <==> OperatorClash(st, item)
    ensures r.Some? ==> r.value.1 < |r.value.0.vehicles| && r.value.0.journeys == st.journeys
    ensures r.Some? ==> r.value.0.vehicles[r.value.1].thirdRailsId == Some(Get(item, "UniqueName", ""))
    ensures FindVehicle(st.vehicles, Get(item, "UniqueName", "")).Some? ==> r == Some((st, FindVehicle(st.vehicles, Get(item, "UniqueName", "")).value))
    ensures r.Some? && FindVehicle(st.vehicles, Get(item, "UniqueName", "")).None? ==>
              r.value.1 == |st.vehicles| && r.value.0.vehicles[..|st.vehicles|] == st.vehicles
    ensures r.Some? && DistinctNames(st.operators) ==> DistinctNames(r.value.0.operators)
  {
    match FindVehicle(st.vehicles, Get(item, "UniqueName", ""))
    case Some(k) => Some((st, k))
    case None =>
      match OperatorStep(st.operators, Get(item, "Simulator", ""), gbRegion)
      case None => None
      case Some((ops, op)) =>
        var v := NewVehicle(item, op).value;
        Some((Store(ops, st.vehicles + [v], st.journeys), |st.vehicles|))
  }

  /** The `is_new` test: the vehicle's cached data is a non-empty dict whose
      Points equal the item's. */
  predicate Unchanged(v: RadarVehicle, item: Item) {
    v.latestData.Some? && |v.latestData.value| > 0
    && Get(v.latestData.value, "Points", "") == Get(item, "Points", "")
  }

  /** One item of `import_data`: the new store and whether the item was
      processed and whether it created a journey. An item whose operator
      lookup raises is caught and skipped, like one without a unique name. */
  function ItemStep(st: Store, item: Item, gbRegion: Option<string>, now: int, parseFloat: string -> Option<real>)
    : (r: (Store, bool, bool))
    ensures r.2 ==> r.1
    ensures r.1 <==> Get(item, "UniqueName", "") != "" && !OperatorClash(st, item)
    ensures !r.1 ==> r.0 == st
    ensures |r.0.journeys| == |st.journeys| + (if r.2 then 1 else 0)
    ensures r.0.journeys[..|st.journeys|] == st.journeys
    ensures DistinctNames(st.operators) ==> DistinctNames(r.0.operators)
  {
    if Get(item, "UniqueName", "") == "" then (st, false, false)
    else
      match VehicleStep(st, item, gbRegion)
      case None => (st, false, false)
      case Some((st1, k)) =>
      var v := st1.vehicles[k];
      if Unchanged(v, item) then (st1, true, false)
      else
        match NewJourney(item, k, now, parseFloat)
        case None => (st1, true, false)
        case Some(j) =>
          var v' := v.(latestJourney := Some(|st1.journeys|), latestData := Some(item));
          (Store(st1.operators, st1.vehicles[k := v'], st1.journeys + [j]), true, true)
  }

  /** An item whose Points equal the cached Points of its vehicle creates
      no journey and leaves every journey and every vehicle's cache as it
      was. */
  lemma UnchangedCreatesNoJourney(st: Store, item: Item, gbRegion: Option<string>, now: int, parseFloat: string -> Option<real>)
    requires Get(item, "UniqueName", "") != ""
    requires var k := FindVehicle(st.vehicles, Get(item, "UniqueName", ""));
             k.Some? && Unchanged(st.vehicles[k.value], item)
    ensures var r := ItemStep(st, item, gbRegion, now, parseFloat);
            r.0 == st && r.1 && !r.2
  {
  }

  /** A processed item creates a journey exactly when its Points differ
      from its vehicle's cached Points and they parse as coordinates. */
  lemma ChangedCreatesJourney(st: Store, item: Item, gbRegion: Option<string>, now: int, parseFloat: string -> Option<real>)
    requires ItemStep(st, item, gbRegion, now, parseFloat).1
    ensures VehicleStep(st, item, gbRegion).Some?
    ensures var (st1, k) := VehicleStep(st, item, gbRegion).value;
            ItemStep(st, item, gbRegion, now, parseFloat).2 <==>
              !Unchanged(st1.vehicles[k], item) && NewJourney(item, k, now, parseFloat).Some?
  {
  }

  /** A journey created for an item becomes its vehicle's latest journey,
      and the item its latest journey data. */
  lemma JourneyBecomesLatest(st: Store, item: Item, gbRegion: Option<string>, now: int, parseFloat: string -> Option<real>)
    requires ItemStep(st, item, gbRegion, now, parseFloat).2
    ensures var s := ItemStep(st, item, gbRegion, now, parseFloat).0;
            var k := VehicleStep(st, item, gbRegion).value.1;
            k < |s.vehicles| && s.vehicles[k].latestJourney == Some(|st.journeys|) &&
            s.vehicles[k].latestData == Some(item) &&
            NewJourney(item, k, now, parseFloat) == Some(s.journeys[|st.journeys|])
  {
  }

  /** The run state after one more item: the store and the `processed` and
      `updated` counters. */
  function Next(acc: (Store, nat, nat), item: Item, gbRegion: Option<string>, now: int, parseFloat: string -> Option<real>)
    : (Store, nat, nat)
  {
    Tally(acc, ItemStep(acc.0, item, gbRegion, now, parseFloat))
  }

  /** The counters after an item whose step gave `step`. */
  function Tally(acc: (Store, nat, nat), step: (Store, bool, bool)): (Store, nat, nat) {
    (step.0, Count(acc.1, step.1), Count(acc.2, step.2))
  }

  /** A counter bumped when `b` holds. */
  function Count(n: nat, b: bool): nat {
    if b then n + 1 else n
  }

  /** `import_data` over `items`, from store `st`. */
  function ImportAll(st: Store, items: seq<Item>, gbRegion: Option<string>, now: int, parseFloat: string -> Option<real>)
    : (Store, nat, nat)
  {
    if |items| == 0 then (st, 0, 0)
    else Next(ImportAll(st, items[..|items| - 1], gbRegion, now, parseFloat), items[|items| - 1], gbRegion, now, parseFloat)
  }

  /** The items with a non-empty UniqueName. */
  function Named(items: seq<Item>): nat {
    if |items| == 0 then 0
    else Named(items[..|items| - 1]) + (if Get(items[|items| - 1], "UniqueName", "") != "" then 1 else 0)
  }

  /** `processed` counts at most the items with a unique name, and exactly
      those while no two operators share a name (which the import itself
      never breaks); `updated` never exceeds it, and each update added one
      journey while the journeys already stored are kept. */
  lemma {:induction false} ImportCounters(st: Store, items: seq<Item>, gbRegion: Option<string>, now: int, parseFloat: string -> Option<real>)
    ensures var r := ImportAll(st, items, gbRegion, now, parseFloat);
            r.1 <= Named(items) && r.2 <= r.1 &&
            |r.0.journeys| == |st.journeys| + r.2 && r.0.journeys[..|st.journeys|] == st.journeys
    ensures DistinctNames(st.operators) ==>
              var r := ImportAll(st, items, gbRegion, now, parseFloat);
              DistinctNames(r.0.operators) && r.1 == Named(items)
  {
    if |items| > 0 {
      ImportCounters(st, items[..|items| - 1], gbRegion, now, parseFloat);
      var prev := ImportAll(st, items[..|items| - 1], gbRegion, now, parseFloat).0;
      var item := items[|items| - 1];
      var r := ItemStep(prev, item, gbRegion, now, parseFloat);
      assert r.0.journeys[..|prev.journeys|] == prev.journeys;
      assert r.0.journeys[..|st.journeys|] == prev.journeys[..|st.journeys|];
      if DistinctNames(st.operators) {
        DistinctNeverSeveral(prev.operators, OperatorFor(Get(item, "Simulator", "")).name);
      }
    }
  }

  lemma ImportAllExtend(st: Store, items: seq<Item>, i: nat, gbRegion: Option<string>, now: int, parseFloat: string -> Option<real>)
    requires i < |items|
    ensures ImportAll(st, items[..i + 1], gbRegion, now, parseFloat) ==
            Next(ImportAll(st, items[..i], gbRegion, now, parseFloat), items[i], gbRegion, now, parseFloat)
  {
    assert items[..i + 1][..i] == items[..i];
    assert items[..i + 1][i] == items[i];
  }

  /** The importer's view of the database. */
  class ThirdRailsImporter {
    var operators: seq<OperatorRow>
    var vehicles: seq<RadarVehicle>
    var journeys: seq<RadarJourney>
    /** The "GB" region, None where it does not exist. */
    const gbRegion: Option<string>

    constructor (operators: seq<OperatorRow>, vehicles: seq<RadarVehicle>, journeys: seq<RadarJourney>, gbRegion: Option<string>)
      ensures this.operators == operators && this.vehicles == vehicles && this.journeys == journeys
      ensures this.gbRegion == gbRegion
    {
      this.operators := operators;
      this.vehicles := vehicles;
      this.journeys := journeys;
      this.gbRegion := gbRegion;
    }

    function Current(): Store
      reads this
    {
      Store(operators, vehicles, journeys)
    }

    /** `get_or_create_operator`; `ok` is false where it raises, and then
        nothing changes. */
    method GetOrCreateOperator(simulator: string) returns (ok: bool, op: nat)
      modifies this
      ensures ok <==> OperatorStep(old(operators), simulator, gbRegion).Some?
      ensures ok ==> (operators, op) == OperatorStep(old(operators), simulator, gbRegion).value
      ensures !ok ==> operators == old(operators)
      ensures vehicles == old(vehicles) && journeys == old(journeys)
    {
      var naming := OperatorFor(simulator);
      var found := FindOperator(operators, naming.name);
      match found
      case Found(k) =>
        ok, op := true, k;
      case NotFound =>
        operators := operators + [OperatorRow(naming.name, naming.slug, gbRegion, "train")];
        ok, op := true, |operators| - 1;
      case Several =>
        ok, op := false, 0;
    }

    /** `get_or_create_vehicle` for an item with a unique name; `ok` is
        false where the operator lookup raises, and then nothing changes. */
    method GetOrCreateVehicle(item: Item) returns (ok: bool, k: nat)
      requires Get(item, "UniqueName", "") != ""
      modifies this
      ensures ok <==> VehicleStep(old(Current()), item, gbRegion).Some?
      ensures ok ==> (Current(), k) == VehicleStep(old(Current()), item, gbRegion).value
      ensures !ok ==> Current() == old(Current())
    {
      var un := Get(item, "UniqueName", "");
      var found := FindVehicle(vehicles, un);
      if found.Some? {
        return true, found.value;
      }
      var op;
      ok, op := GetOrCreateOperator(Get(item, "Simulator", ""));
      if !ok {
        return false, 0;
      }
      var v := NewVehicle(item, op).value;
      vehicles := vehicles + [v];
      k := |vehicles| - 1;
    }

    /** `create_vehicle_journey`: appends the journey and makes it, and the
        item, the vehicle's latest. */
    method CreateVehicleJourney(k: nat, item: Item, now: int, parseFloat: string -> Option<real>) returns (created: bool)
      requires k < |vehicles|
      modifies this
      ensures created <==> NewJourney(item, k, now, parseFloat).Some?
      ensures !created ==> Current() == old(Current())
      ensures created ==>
        journeys == old(journeys) + [NewJourney(item, k, now, parseFloat).value] &&
        vehicles == old(vehicles)[k := old(vehicles)[k].(latestJourney := Some(|old(journeys)|), latestData := Some(item))] &&
        operators == old(operators)
    {
      var j := NewJourney(item, k, now, parseFloat);
      if j.None? {
        return false;
      }
      var v := vehicles[k].(latestJourney := Some(|journeys|), latestData := Some(item));
      journeys := journeys + [j.value];
      vehicles := vehicles[k := v];
      created := true;
    }

    /** The body of the `import_data` loop for one item: whether it was
        processed and whether it created a journey. */
    method ImportItem(item: Item, now: int, parseFloat: string -> Option<real>)
      returns (processed: bool, updated: bool)
      modifies this
      ensures (Current(), processed, updated) == ItemStep(old(Current()), item, gbRegion, now, parseFloat)
    {
      ghost var before := Current();
      var un := Get(item, "UniqueName", "");
      if un == "" {
        return false, false;
      }
      var ok, k := GetOrCreateVehicle(item);
      if !ok {
        return false, false;
      }
      processed := true;
      updated := false;
      if !Unchanged(vehicles[k], item) {
        updated := CreateVehicleJourney(k, item, now, parseFloat);
      }
    }

    /** One turn of the `import_data` loop: the item imported and the
        counters advanced. */
    method ImportNext(ghost start: Store, items: seq<Item>, i: nat, now: int, parseFloat: string -> Option<real>,
                      processed: nat, updated: nat)
      returns (processed': nat, updated': nat)
      requires i < |items|
      requires (Current(), processed, updated) == ImportAll(start, items[..i], gbRegion, now, parseFloat)
      modifies this
      ensures (Current(), processed', updated') == ImportAll(start, items[..i + 1], gbRegion, now, parseFloat)
    {
      ghost var acc := (Current(), processed, updated);
      ImportAllExtend(start, items, i, gbRegion, now, parseFloat);
      var p, u := ImportItem(items[i], now, parseFloat);
      ghost var step := (Current(), p, u);
      processed', updated' := Count(processed, p), Count(updated, u);
      assert (Current(), processed', updated') == Tally(acc, step);
    }

    /** `import_data` over the fetched items, with `now` the time stamped
        on the new journeys. */
    method ImportData(items: seq<Item>, now: int, parseFloat: string -> Option<real>)
      returns (processed: nat, updated: nat)
      modifies this
      ensures (Current(), processed, updated) == ImportAll(old(Current()), items, gbRegion, now, parseFloat)
    {
      ghost var start := Current();
      processed, updated := 0, 0;
      var i := 0;
      assert items[..0] == [];
      while i < |items|
        invariant 0 <= i <= |items|
        invariant (Current(), processed, updated) == ImportAll(start, items[..i], gbRegion, now, parseFloat)
      {
        processed, updated := ImportNext(start, items, i, now, parseFloat, processed, updated);
        i := i + 1;
      }
      assert items[..i] == items;
    }
  }
}
