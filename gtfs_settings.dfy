/** The settings of the static GTFS importer
    (bustimes/management/commands/import_gtfs_worldwide.py): the defaults
    `handle` fills in from a data source's `gtfs` settings, the stop prefix
    every stop code carries, and the agency code `handle_operator` derives
    for an agency. */
module GtfsSettings {
  import opened Wrappers
  import opened Text

  /** The `gtfs` object of a data source's settings (with its
      `custom_processing` flags); None is a key that is not there. */
  datatype GtfsOptions = GtfsOptions(
    agencyPrefix: Option<string>,
    stopPrefix: Option<string>,
    operatorNoc: Option<string>,
    defaultOperator: Option<string>,
    operatorMatching: Option<string>,
    regionHandling: Option<string>,
    skipRouteLinks: Option<bool>,
    handleAgencies: Option<bool>,
    handleShapes: Option<bool>)

  const NoOptions := GtfsOptions(None, None, None, None, None, None, None, None, None)

  /** What `handle` settles. */
  datatype Config = Config(
    sourceName: string,
    agencyPrefix: string,
    stopPrefix: string,
    operatorNoc: string,
    defaultOperator: string,
    operatorMatching: string,
    regionHandling: string,
    skipRouteLinks: bool,
    handleAgencies: bool,
    handleShapes: bool)

  /** `handle`: every absent key takes its default; an absent or empty
      stop prefix becomes the lower-cased source name and "-", so the stop
      prefix is never empty. `gtfs` is None when the source has no
      settings or no `gtfs` key. */
  function Configure(sourceName: string, gtfs: Option<GtfsOptions>): (c: Config)
    ensures c.sourceName == sourceName
    ensures c.stopPrefix != ""
    ensures var g := gtfs.GetOr(NoOptions);
            (g.stopPrefix.Some? && g.stopPrefix.value != "" ==> c.stopPrefix == g.stopPrefix.value) &&
            (g.stopPrefix.None? || g.stopPrefix.value == "" ==> c.stopPrefix == Lower(sourceName) + "-")
    ensures var g := gtfs.GetOr(NoOptions);
            c.agencyPrefix == g.agencyPrefix.GetOr("") && c.operatorNoc == g.operatorNoc.GetOr("") &&
            c.defaultOperator == g.defaultOperator.GetOr("") &&
            c.operatorMatching == g.operatorMatching.GetOr("noc") &&
            c.regionHandling == g.regionHandling.GetOr("auto") &&
            c.skipRouteLinks == g.skipRouteLinks.GetOr(false) &&
            c.handleAgencies == g.handleAgencies.GetOr(true) && c.handleShapes == g.handleShapes.GetOr(true)
  {
    var g := gtfs.GetOr(NoOptions);
    var stopPrefix := g.stopPrefix.GetOr("");
    var auto := Lower(sourceName) + "-";
    Config(
      sourceName,
      g.agencyPrefix.GetOr(""),
      if stopPrefix != "" then stopPrefix else auto,
      g.operatorNoc.GetOr(""),
      g.defaultOperator.GetOr(""),
      g.operatorMatching.GetOr("noc"),
      g.regionHandling.GetOr("auto"),
      g.skipRouteLinks.GetOr(false),
      g.handleAgencies.GetOr(true),
      g.handleShapes.GetOr(true))
  }

  /** The example of the auto-generated prefix: source "Translink" gives
      "translink-". */
  lemma AutoStopPrefix(name: string)
    requires name == "Translink"
    ensures Configure(name, None).stopPrefix == "translink-"
  {
  }

  /** A code with the prefix put in front when the prefix is non-empty. */
  function Prefixed(prefix: string, code: string): (r: string)
    ensures prefix != "" ==> r == prefix + code && StartsWith(r, prefix)
    ensures prefix == "" ==> r == code
  {
    if prefix != "" then prefix + code else code
  }

  /** Prefixing keeps codes apart. */
  lemma PrefixedInjective(prefix: string, a: string, b: string)
    requires Prefixed(prefix, a) == Prefixed(prefix, b)
    ensures a == b
  {
    if prefix != "" {
      assert a == (prefix + a)[|prefix|..];
      assert b == (prefix + b)[|prefix|..];
    }
  }

  /** Where the run of non-space characters from `i` ends. */
  function WordEnd(s: string, i: nat): (e: nat)
    requires i <= |s|
    ensures i <= e <= |s|
    ensures forall k :: i <= k < e ==> !IsSpace(s[k])
    ensures e == |s| || IsSpace(s[e])
    decreases |s| - i
  {
    if i == |s| || IsSpace(s[i]) then i else WordEnd(s, i + 1)
  }

  /** `s.split()[0]`, None where it raises (a blank string). */
  function FirstWord(s: string): (w: Option<string>)
    ensures w.None? <==> LStrip(s) == ""
    ensures w.Some? ==> w.value != "" && StartsWith(LStrip(s), w.value)
    ensures w.Some? ==> forall k :: 0 <= k < |w.value| ==> !IsSpace(w.value[k])
    ensures w.Some? ==> |w.value| == |LStrip(s)| || IsSpace(LStrip(s)[|w.value|])
  {
    var t := LStrip(s);
    if t == "" then None
    else
      var e := WordEnd(t, 0);
      assert t[..e] == t[..|t[..e]|];
      Some(t[..e])
  }

  /** The agency code of `handle_operator`: the agency id when the row has
      one; else the configured operator code; else the first word of the
      agency name, or of the source name when the agency name is empty, cut
      to 10 characters; then the agency prefix in front. None where
      `split()[0]` raises on a blank name. */
  function AgencyCode(c: Config, agencyId: Option<string>, agencyName: string): (r: Option<string>)
    ensures agencyId.Some? ==> r == Some(Prefixed(c.agencyPrefix, agencyId.value))
    ensures agencyId.None? && c.operatorNoc != "" ==> r == Some(Prefixed(c.agencyPrefix, c.operatorNoc))
    ensures agencyId.None? && c.operatorNoc == "" ==>
              var word := FirstWord(if agencyName != "" then agencyName else c.sourceName);
              (r.None? <==> word.None?) &&
              (r.Some? ==> r.value == Prefixed(c.agencyPrefix, Take(word.value, 10)))
    ensures r.Some? && c.agencyPrefix != "" ==> StartsWith(r.value, c.agencyPrefix)
  {
    var code :=
      if agencyId.Some? then Some(agencyId.value)
      else if c.operatorNoc != "" then Some(c.operatorNoc)
      else
        match FirstWord(if agencyName != "" then agencyName else c.sourceName)
        case None => None
        case Some(w) => Some(Take(w, 10));
    match code
    case None => None
    case Some(id) => Some(Prefixed(c.agencyPrefix, id))
  }

  /** An agency without id or configured code, named "Translink Queensland",
      gets the code "Translink" (with the agency prefix). */
  lemma AgencyCodeExample(c: Config, name: string)
    requires c.operatorNoc == "" && name == "Translink Queensland"
    ensures AgencyCode(c, None, name) == Some(Prefixed(c.agencyPrefix, "Translink"))
  {
    assert !IsSpace(name[0]) && IsSpace(name[9]);
    assert LStrip(name) == name;
    assert forall k :: 0 <= k < 9 ==> !IsSpace(name[k]);
    WordEndAt(name, 0, 9);
    assert name[..9] == "Translink";
    assert FirstWord(name) == Some("Translink");
    assert Take("Translink", 10) == "Translink";
  }

  /** The run of non-space characters from `i` ends at the first space. */
  lemma {:induction false} WordEndAt(s: string, i: nat, j: nat)
    requires i <= j < |s| && IsSpace(s[j])
    requires forall k :: i <= k < j ==> !IsSpace(s[k])
    ensures WordEnd(s, i) == j
    decreases j - i
  {
    if i < j {
      WordEndAt(s, i + 1, j);
    }
  }
}
