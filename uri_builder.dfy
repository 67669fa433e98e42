/** The request URIs for the NextBus feeds (NextMuniUriBuilder.java): a
    fixed base and a list of query parameters in the order they are
    appended. Percent-encoding is not modelled. */
module UriBuilder {
  import opened JavaLang

  datatype Param = Param(key: string, value: string)

  datatype Uri = Uri(base: string, params: seq<Param>)

  const RouteListBase: string := "http://www.nextmuni.com/googleMap/routeSelector.jsp"
  const RouteDetailsBase: string := "http://webservices.nextbus.com/service/publicXMLFeed?command=routeConfig"
  const MultiPredictionsBase: string := "http://webservices.nextbus.com/service/publicXMLFeed?command=predictionsForMultiStops"

  /** The values of every parameter named key, in order. */
  function QueryValues(params: seq<Param>, key: string): (r: seq<string>)
    ensures |r| <= |params|
  {
    if params == [] then []
    else
      var rest := QueryValues(params[..|params| - 1], key);
      if params[|params| - 1].key == key then rest + [params[|params| - 1].value] else rest
  }

  /** The keys that occur, in order and with repetition. */
  function Keys(params: seq<Param>): seq<string>
  {
    seq(|params|, i requires 0 <= i < |params| => params[i].key)
  }

  function BuildRouteListUri(agency: string): Uri
  {
    Uri(RouteListBase, [Param("a", agency)])
  }

  function BuildRouteDetailsUri(agency: string, routeTag: string): Uri
  {
    Uri(RouteDetailsBase, [Param("a", agency), Param("r", routeTag)])
  }

  /** The route list request carries the agency and nothing else. */
  lemma RouteListQuery(agency: string)
    ensures BuildRouteListUri(agency).base == RouteListBase
    ensures Keys(BuildRouteListUri(agency).params) == ["a"]
    ensures QueryValues(BuildRouteListUri(agency).params, "a") == [agency]
  {
    var ps := BuildRouteListUri(agency).params;
    assert ps[..0] == [];
  }

  /** The route details request carries the agency, then the route. */
  lemma RouteDetailsQuery(agency: string, routeTag: string)
    ensures BuildRouteDetailsUri(agency, routeTag).base == RouteDetailsBase
    ensures Keys(BuildRouteDetailsUri(agency, routeTag).params) == ["a", "r"]
    ensures QueryValues(BuildRouteDetailsUri(agency, routeTag).params, "a") == [agency]
    ensures QueryValues(BuildRouteDetailsUri(agency, routeTag).params, "r") == [routeTag]
  {
    var ps := BuildRouteDetailsUri(agency, routeTag).params;
    assert ps[..1][..0] == [] && ps[..1] == [Param("a", agency)];
  }

  /** The value of one "stops" parameter: the route, an empty direction,
      and the stop. */
  function StopsValue(routeTag: string, stopTag: string): string
  {
    routeTag + "||" + stopTag
  }

  function StopsParams(stopTag: string, routeTags: seq<string>): (r: seq<Param>)
    ensures |r| == |routeTags|
  {
    seq(|routeTags|, i requires 0 <= i < |routeTags| => Param("stops", StopsValue(routeTags[i], stopTag)))
  }

  /** buildMultiPredictionUri: the agency, then one "stops" parameter per
      route tag, in argument order. */
  method BuildMultiPredictionUri(agency: string, stopTag: string, routeTags: seq<string>) returns (u: Uri)
    ensures u == Uri(MultiPredictionsBase, [Param("a", agency)] + StopsParams(stopTag, routeTags))
  {
    var params := [Param("a", agency)];
    for i := 0 to |routeTags|
      invariant params == [Param("a", agency)] + StopsParams(stopTag, routeTags[..i])
    {
      assert StopsParams(stopTag, routeTags[..i + 1]) == StopsParams(stopTag, routeTags[..i])
        + [Param("stops", StopsValue(routeTags[i], stopTag))];
      params := params + [Param("stops", routeTags[i] + "||" + stopTag)];
    }
    assert routeTags[..|routeTags|] == routeTags;
    u := Uri(MultiPredictionsBase, params);
  }

  /** The multi-stop request names the agency once and asks for the stop on
      each route in turn; with no routes it carries only the agency. */
  lemma {:induction false} MultiPredictionQuery(agency: string, stopTag: string, routeTags: seq<string>)
    ensures var ps := [Param("a", agency)] + StopsParams(stopTag, routeTags);
      && QueryValues(ps, "a") == [agency]
      && QueryValues(ps, "stops") == seq(|routeTags|, i requires 0 <= i < |routeTags| => StopsValue(routeTags[i], stopTag))
      && (routeTags == [] ==> ps == [Param("a", agency)])
    decreases |routeTags|
  {
    var ps := [Param("a", agency)] + StopsParams(stopTag, routeTags);
    if routeTags == [] {
      assert ps[..0] == [];
    } else {
      var n := |routeTags| - 1;
      MultiPredictionQuery(agency, stopTag, routeTags[..n]);
      var qs := [Param("a", agency)] + StopsParams(stopTag, routeTags[..n]);
      assert ps[..|ps| - 1] == qs;
      assert ps[|ps| - 1] == Param("stops", StopsValue(routeTags[n], stopTag));
    }
  }

  /** Where a "stops" value splits: the text before the first "||" and the
      text after it. */
  function SplitStops(v: string): Option<(string, string)>
  {
    if |v| < 2 then None
    else if v[0] == '|' && v[1] == '|' then Some(("", v[2..]))
    else match SplitStops(v[1..])
      case None => None
      case Some(p) => Some(([v[0]] + p.0, p.1))
  }

  /** A route tag without '|' and the stop tag are read back from the
      value built from them. */
  lemma {:induction false} StopsValueRoundTrip(routeTag: string, stopTag: string)
    requires forall i :: 0 <= i < |routeTag| ==> routeTag[i] != '|'
    ensures SplitStops(StopsValue(routeTag, stopTag)) == Some((routeTag, stopTag))
    decreases |routeTag|
  {
    var v := StopsValue(routeTag, stopTag);
    if routeTag == [] {
      assert v == "||" + stopTag;
      assert v[2..] == stopTag;
    } else {
      StopsValueRoundTrip(routeTag[1..], stopTag);
      assert v[1..] == StopsValue(routeTag[1..], stopTag);
      assert [v[0]] + routeTag[1..] == routeTag;
    }
  }
}
