/** The standalone copies of `parse_coordinates` and `parse_speed` in
    test_thirdrails.py. They take a possibly-None value (None for a JSON
    null or a missing argument) and agree with the importer's parsers on
    every string. */
module ThirdRailsScript {
  import opened Wrappers
  import opened Text
  import opened RadarItem
  import ThirdRails

  /** `parse_coordinates` of the script: None for None or "", for any
      split at ',' other than two parts, for a part `float` rejects (the
      ValueError is caught) and for a point outside the inclusive ranges. */
  function ParseCoordinates(points: Option<string>, parseFloat: string -> Option<real>): (r: Option<Point>)
    ensures points.None? || points == Some("") ==> r.None?
    ensures r.Some? ==> -180.0 <= r.value.x <= 180.0 && -90.0 <= r.value.y <= 90.0
    ensures r.Some? ==> points.Some? && |Split(points.value, ',')| == 2
  {
    match points
    case None => None
    case Some(s) =>
      if s == "" then None
      else
        var coords := Split(s, ',');
        if |coords| == 2 then
          var lng := parseFloat(Strip(coords[0]));
          var lat := parseFloat(Strip(coords[1]));
          if lng.None? || lat.None? then None
          else if !(-180.0 <= lng.value <= 180.0 && -90.0 <= lat.value <= 90.0) then None
          else Some(Point(lng.value, lat.value))
        else None
  }

  /** `parse_speed` of the script: 0 for None or "", else the importer's
      first-run-of-digits value. */
  function ParseSpeed(text: Option<string>): (n: nat)
    ensures text.None? || text == Some("") ==> n == 0
  {
    match text
    case None => 0
    case Some(t) => if t == "" then 0 else ThirdRails.ParseSpeed(t)
  }

  /** The script's coordinate parser is the importer's on every string. */
  lemma SameCoordinates(s: string, parseFloat: string -> Option<real>)
    ensures ParseCoordinates(Some(s), parseFloat) == ThirdRails.ParseCoordinates(s, parseFloat)
  {
  }

  /** The script's speed parser is the importer's on every string, and a
      missing value reads as an empty one. */
  lemma SameSpeed(text: Option<string>)
    ensures ParseSpeed(text) == ThirdRails.ParseSpeed(text.GetOr(""))
  {
  }

  /** A part that `float` rejects gives None rather than an error. */
  lemma NonNumericGivesNone(a: string, b: string, parseFloat: string -> Option<real>)
    requires ',' !in a && ',' !in b
    requires parseFloat(Strip(a)).None? || parseFloat(Strip(b)).None?
    ensures ParseCoordinates(Some(a + "," + b), parseFloat).None?
  {
    var s := a + "," + b;
    assert s == a + [','] + b;
    SplitTwo(a, b, ',');
    assert s != "" by { assert |s| == |a| + 1 + |b|; }
  }
}
