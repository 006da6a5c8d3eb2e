/** The new-vehicle notifier (vehicles/management/commands/listen.py): the
    payload the database trigger sends for each inserted vehicle, how the
    listener splits it, and the message it posts. The LISTEN loop and the
    webhook POST are I/O and are not modelled. */
module Listen {
  import opened Wrappers
  import opened Text

  const VehiclesUrl := "https://gladetimes.midlandbus.uk/vehicles/"
  /** The mention appended for operator NCTR. */
  const Mention := " <@1238439672708075520>"

  /** `get_content`: a Markdown link whose label is the slug and whose
      target is the vehicle's page. */
  function GetContent(slug: string): (r: string)
    ensures StartsWith(r, "[" + slug + "](")
    ensures EndsWith(r, VehiclesUrl + slug + ")")
    ensures |r| == 2 * |slug| + |VehiclesUrl| + 4
  {
    "[" + slug + "](" + VehiclesUrl + slug + ")"
  }

  /** Two vehicles with different slugs never get the same link. */
  lemma GetContentInjective(a: string, b: string)
    requires GetContent(a) == GetContent(b)
    ensures a == b
  {
    var r := GetContent(a);
    assert |a| == |b|;
    assert r[1..1 + |a|] == a;
    assert r[1..1 + |b|] == b;
  }

  /** The trigger's payload: `NEW.slug || '|' || COALESCE(NEW.operator_id, '')`. */
  function EncodePayload(slug: string, operatorId: Option<string>): (p: string)
    ensures |p| == |slug| + 1 + |operatorId.GetOr("")|
    ensures p[..|slug|] == slug && p[|slug|] == '|' && p[|slug| + 1..] == operatorId.GetOr("")
  {
    slug + "|" + operatorId.GetOr("")
  }

  datatype Notice = Notice(slug: string, operatorId: string)

  /** The listener's split: the slug is the text before the first '|', the
      operator the text between the first and the second '|' (or the end),
      and "" when the payload has no '|'. */
  function DecodePayload(payload: string): (n: Notice)
    ensures '|' !in n.slug && '|' !in n.operatorId
    ensures '|' !in payload ==> n == Notice(payload, "")
    ensures '|' in payload ==>
      var head := n.slug + "|" + n.operatorId;
      StartsWith(payload, head) && (|payload| == |head| || payload[|head|] == '|')
  {
    var parts := Split(payload, '|');
    if '|' !in payload then
      SplitNoSep(payload, '|');
      Notice(parts[0], "")
    else
      SplitFirst(payload, '|');
      var i := |parts[0]|;
      var rest := payload[i + 1..];
      assert payload == parts[0] + "|" + rest;
      SplitAppend(parts[0], rest, '|');
      SplitFirst(rest, '|');
      Notice(parts[0], if |parts| > 1 then parts[1] else "")
  }

  /** Decoding an encoded payload gives back the slug and the operator (or
      "" for a vehicle without one), when neither contains '|'. */
  lemma RoundTrip(slug: string, operatorId: Option<string>)
    requires '|' !in slug && '|' !in operatorId.GetOr("")
    ensures DecodePayload(EncodePayload(slug, operatorId)) == Notice(slug, operatorId.GetOr(""))
  {
    var op := operatorId.GetOr("");
    SplitAppend(slug, op, '|');
    SplitNoSep(op, '|');
  }

  /** The webhook content for one notification: the link, followed by the
      mention exactly when the operator is NCTR. */
  function Message(payload: string): (m: string)
    ensures StartsWith(m, GetContent(DecodePayload(payload).slug))
    ensures EndsWith(m, Mention) <==> DecodePayload(payload).operatorId == "NCTR"
  {
    var n := DecodePayload(payload);
    var content := GetContent(n.slug);
    if n.operatorId == "NCTR" then content + Mention
    else
      assert content[|content| - 1] == ')';
      content
  }
}
