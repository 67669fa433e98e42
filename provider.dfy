/** The content provider (NextMuniProvider.java): the URI table, the MIME
    types, the cursors it builds for routes, directions, stops and
    predictions, the fetch-and-parse step with its result dispatch, and the
    numbering of routes scraped from the route list page. The HTTP client
    is not modelled: what a request returns is a parameter. */
module Provider {
  import opened JavaLang
  import opened XmlPull
  import opened Parser
  import Sorting
  import Db
  import RouteConfigParser
  import PredictionsParser

  // -----------------------------------------------------------------------
  // URIs and types

  const NoMatch: int := -1
  const NextMuniRoutes: int := 0
  const NextMuniRouteId: int := 1
  const NextMuniDirections: int := 2
  const NextMuniStops: int := 4
  const NextMuniPredictions: int := 5

  datatype ProviderError = IllegalArgument | UnsupportedOperation

  predicate IsNumber(s: string)
  {
    |s| > 0 && forall i :: 0 <= i < |s| ==> IsDigit(s[i])
  }

  /** The URI table the provider registers, applied to the path segments of
      a URI under the provider's authority: "routes", "routes/#", "directions/any",
      "stops/any/any" and "predictions/any/any/any". */
  function Match(segments: seq<string>): (code: int)
    ensures code == NextMuniDirections ==> |segments| == 2
    ensures code == NextMuniStops ==> |segments| == 3
    ensures code == NextMuniPredictions ==> |segments| == 4
  {
    if |segments| == 1 && segments[0] == "routes" then NextMuniRoutes
    else if |segments| == 2 && segments[0] == "routes" && IsNumber(segments[1]) then NextMuniRouteId
    else if |segments| == 2 && segments[0] == "directions" then NextMuniDirections
    else if |segments| == 3 && segments[0] == "stops" then NextMuniStops
    else if |segments| == 4 && segments[0] == "predictions" then NextMuniPredictions
    else NoMatch
  }

  /** getType: a fixed MIME type per match code, IllegalArgumentException
      for anything else. */
  function GetType(code: int): Result<string, ProviderError>
  {
    if code == NextMuniRoutes then Ok("vnd.android.cursor.dir/vnd.yasskin.route")
    else if code == NextMuniRouteId then Ok("vnd.android.cursor.item/vnd.yasskin.route")
    else if code == NextMuniDirections then Ok("vnd.android.cursor.dir/vnd.yasskin.direction")
    else if code == NextMuniStops then Ok("vnd.android.cursor.dir/vnd.yasskin.stop")
    else if code == NextMuniPredictions then Ok("vnd.android.cursor.dir/vnd.yasskin.prediction")
    else Err(IllegalArgument)
  }

  /** Exactly the five match codes have a type, no two share one, and every
      other code is an illegal argument. */
  lemma GetTypeCases(a: int, b: int)
    ensures GetType(a).Ok? <==> a in {NextMuniRoutes, NextMuniRouteId, NextMuniDirections, NextMuniStops, NextMuniPredictions}
    ensures GetType(a).Err? ==> GetType(a).error == IllegalArgument
    ensures GetType(a).Ok? && GetType(a) == GetType(b) ==> a == b
  {
  }

  /** What query() is asked for. */
  datatype Query =
    | RoutesQuery
    | DirectionsQuery(routeTag: string)
    | StopsQuery(routeTag: string, directionTag: string)
    | PredictionsQuery(routeTag: string, directionTag: string, stopTag: string)

  /** query's switch: the path segments after the first name the route,
      direction and stop; a URI without a case, routes/# among them, is an
      illegal argument. */
  function QueryFor(segments: seq<string>): Result<Query, ProviderError>
  {
    var code := Match(segments);
    if code == NextMuniRoutes then Ok(RoutesQuery)
    else if code == NextMuniDirections then Ok(DirectionsQuery(segments[1]))
    else if code == NextMuniStops then Ok(StopsQuery(segments[1], segments[2]))
    else if code == NextMuniPredictions then Ok(PredictionsQuery(segments[1], segments[2], segments[3]))
    else Err(IllegalArgument)
  }

  /** query answers every URI getType answers except a single route's
      (routes/#), which getType types and query rejects. */
  lemma QueryServesTypedUrisButRouteId(segments: seq<string>)
    ensures QueryFor(segments).Ok? <==> GetType(Match(segments)).Ok? && Match(segments) != NextMuniRouteId
    ensures Match(segments) == NextMuniRouteId ==> GetType(Match(segments)).Ok? && QueryFor(segments).Err?
  {
  }

  /** insert, update and delete: the provider is read-only. */
  datatype Mutation = Insert | Update | Delete

  function Mutate(op: Mutation): (r: Result<int, ProviderError>)
    ensures r == Err(UnsupportedOperation)
  {
    match op
    case Insert => Err(UnsupportedOperation)
    case Update => Err(UnsupportedOperation)
    case Delete => Err(UnsupportedOperation)
  }

  // -----------------------------------------------------------------------
  // Cursors

  datatype Cell = IntCell(i: int) | StrCell(s: string)
  datatype Table = Table(columns: seq<string>, rows: seq<seq<Cell>>)

  const RouteColumns: seq<string> := ["_id", "name", "description"]
  const DirectionColumns: seq<string> := ["_id", "route_tag", "tag", "title"]
  const StopColumns: seq<string> := ["_id", "route_tag", "direction_tag", "stop_tag", "title"]
  const PredictionColumns: seq<string> := ["_id", "route_tag", "direction_tag", "stop_tag", "predicted_time", "endpoint"]

  function RouteRow(id: int, r: Db.Route): seq<Cell>
  {
    [IntCell(id), StrCell(r.tag), StrCell(r.description)]
  }

  /** The routes cursor: every route once, in Route order, numbered from 0,
      its tag in the "name" column. */
  method RoutesCursor(routes: map<string, Db.Route>) returns (table: Table, ghost ordered: seq<Db.Route>)
    ensures forall r :: r in ordered <==> r in routes.Values
    ensures |ordered| == |routes.Values|
    ensures Sorting.SortedBy(ordered, Db.RouteOrder())
    ensures table.columns == RouteColumns && |table.rows| == |ordered|
    ensures forall i :: 0 <= i < |ordered| ==> table.rows[i] == RouteRow(i, ordered[i])
  {
    var list := ListOf(routes.Values);
    Db.RouteOrderIsComparator(set x | x in list);
    var sorted := Sorting.Sort(list, Db.RouteOrder());
    assert forall r :: r in sorted <==> r in multiset(list);
    ordered := sorted;
    var rows := RouteRows(sorted);
    table := Table(RouteColumns, rows);
  }

  /** The rows of the routes cursor, numbered from 0. */
  method RouteRows(sorted: seq<Db.Route>) returns (rows: seq<seq<Cell>>)
    ensures |rows| == |sorted|
    ensures forall i :: 0 <= i < |sorted| ==> rows[i] == RouteRow(i, sorted[i])
  {
    rows := [];
    var id := 0;
    for k := 0 to |sorted|
      invariant id == k && |rows| == k
      invariant forall i :: 0 <= i < k ==> rows[i] == RouteRow(i, sorted[i])
    {
      var route := sorted[k];
      rows := rows + [[IntCell(id), StrCell(route.tag), StrCell(route.description)]];
      id := id + 1;
    }
  }

  /** The directions shown in the UI, in their order. */
  function Kept(ds: seq<Db.Direction>): seq<Db.Direction>
  {
    if ds == [] then []
    else
      var rest := Kept(ds[..|ds| - 1]);
      if ds[|ds| - 1].useForUI then rest + [ds[|ds| - 1]] else rest
  }

  /** Kept keeps exactly the directions with useForUI. */
  lemma {:induction false} KeptMembers(ds: seq<Db.Direction>)
    ensures forall d :: d in Kept(ds) <==> d in ds && d.useForUI
    decreases |ds|
  {
    if ds != [] {
      var p := ds[..|ds| - 1];
      KeptMembers(p);
      assert ds == p + [ds[|ds| - 1]];
    }
  }

  lemma KeptBeforeLast(p: seq<Db.Direction>, last: Db.Direction, d: Db.Direction)
    requires Sorting.SortedBy(p + [last], Db.DirectionOrder())
    requires d in Kept(p)
    ensures Db.DirectionOrder()(d, last) <= 0
  {
    KeptMembers(p);
    var m :| 0 <= m < |p| && p[m] == d;
    assert (p + [last])[m] == d && (p + [last])[|p|] == last;
  }

  /** Kept keeps the directions in their order. */
  lemma {:induction false} KeptSorted(ds: seq<Db.Direction>)
    requires Sorting.SortedBy(ds, Db.DirectionOrder())
    ensures Sorting.SortedBy(Kept(ds), Db.DirectionOrder())
    decreases |ds|
  {
    if ds != [] {
      var p := ds[..|ds| - 1];
      var last := ds[|ds| - 1];
      assert Sorting.SortedBy(p, Db.DirectionOrder()) by {
        forall i, j | 0 <= i < j < |p|
          ensures Db.DirectionOrder()(p[i], p[j]) <= 0
        {
          assert p[i] == ds[i] && p[j] == ds[j];
        }
      }
      KeptSorted(p);
      KeptMembers(p);
      if last.useForUI {
        var kp := Kept(p);
        var k := kp + [last];
        forall i, j | 0 <= i < j < |k|
          ensures Db.DirectionOrder()(k[i], k[j]) <= 0
        {
          if j == |kp| {
            assert ds == p + [last];
            assert k[i] == kp[i] && kp[i] in kp;
            KeptBeforeLast(p, last, k[i]);
          } else {
            assert k[i] == kp[i] && k[j] == kp[j];
          }
        }
      }
    }
  }

  function DirectionRow(id: int, routeTag: string, d: Db.Direction): seq<Cell>
  {
    [IntCell(id), StrCell(routeTag), StrCell(d.tag), StrCell(d.title)]
  }

  lemma KeptSnoc(ds: seq<Db.Direction>, k: nat)
    requires k < |ds|
    ensures Kept(ds[..k + 1]) == Kept(ds[..k]) + (if ds[k].useForUI then [ds[k]] else [])
  {
    assert ds[..k + 1][..k] == ds[..k];
  }

  function DirectionRows(routeTag: string, kept: seq<Db.Direction>): (rows: seq<seq<Cell>>)
    ensures |rows| == |kept|
  {
    seq(|kept|, i requires 0 <= i < |kept| => DirectionRow(i, routeTag, kept[i]))
  }

  lemma DirectionRowsSnoc(routeTag: string, kept: seq<Db.Direction>, d: Db.Direction)
    ensures DirectionRows(routeTag, kept + [d]) == DirectionRows(routeTag, kept) + [DirectionRow(|kept|, routeTag, d)]
  {
    var a, b := DirectionRows(routeTag, kept + [d]), DirectionRows(routeTag, kept) + [DirectionRow(|kept|, routeTag, d)];
    assert forall i :: 0 <= i < |a| ==> a[i] == b[i];
  }

  /** The rows of the directions cursor: the directions for the UI,
      numbered from 0. */
  method DirectionRowsOf(routeTag: string, sorted: seq<Db.Direction>) returns (rows: seq<seq<Cell>>)
    ensures rows == DirectionRows(routeTag, Kept(sorted))
  {
    rows := [];
    var id := 0;
    for k := 0 to |sorted|
      invariant rows == DirectionRows(routeTag, Kept(sorted[..k])) && id == |rows|
    {
      var direction := sorted[k];
      KeptSnoc(sorted, k);
      if !direction.useForUI {
        continue;
      }
      DirectionRowsSnoc(routeTag, Kept(sorted[..k]), direction);
      rows := rows + [[IntCell(id), StrCell(routeTag), StrCell(direction.tag), StrCell(direction.title)]];
      id := id + 1;
    }
    assert sorted[..|sorted|] == sorted;
  }

  /** The directions cursor: the directions in Direction order, those not
      for the UI dropped, the rest numbered from 0, each row carrying the
      requested route tag. */
  method DirectionsCursor(routeTag: string, directions: map<string, Db.Direction>)
    returns (table: Table, ghost ordered: seq<Db.Direction>)
    ensures forall d :: d in ordered <==> d in directions.Values
    ensures |ordered| == |directions.Values|
    ensures Sorting.SortedBy(ordered, Db.DirectionOrder())
    ensures table == Table(DirectionColumns, DirectionRows(routeTag, Kept(ordered)))
  {
    var list := ListOf(directions.Values);
    Db.DirectionOrderIsComparator(set x | x in list);
    var sorted := Sorting.Sort(list, Db.DirectionOrder());
    assert forall d :: d in sorted <==> d in multiset(list);
    ordered := sorted;
    var rows := DirectionRowsOf(routeTag, sorted);
    table := Table(DirectionColumns, rows);
  }

  function StopRow(id: int, routeTag: string, directionTag: string, stop: RouteConfigParser.StopRow): seq<Cell>
  {
    [IntCell(id), StrCell(routeTag), StrCell(directionTag), IntCell(stop.tag), StrCell(stop.title)]
  }

  /** The stops cursor: one row per stop of the direction, in the
      direction's order, numbered from 0. */
  method StopsCursor(routeTag: string, directionTag: string, stops: seq<Db.Stop>) returns (table: Table)
    ensures table.columns == StopColumns && |table.rows| == |stops|
    ensures forall i :: 0 <= i < |stops| ==>
      table.rows[i] == StopRow(i, routeTag, directionTag, RouteConfigParser.RowOf(stops[i]))
  {
    var rows: seq<seq<Cell>> := [];
    var id := 0;
    for k := 0 to |stops|
      invariant id == k && |rows| == k
      invariant forall i :: 0 <= i < k ==> rows[i] == StopRow(i, routeTag, directionTag, RouteConfigParser.RowOf(stops[i]))
    {
      var stop := stops[k];
      rows := rows + [[IntCell(id), StrCell(routeTag), StrCell(directionTag), IntCell(stop.tag), StrCell(stop.title)]];
      id := id + 1;
    }
    table := Table(StopColumns, rows);
  }

  function PredictionRow(id: int, routeTag: string, directionTag: string, stopTag: string, p: Db.Prediction): seq<Cell>
  {
    [IntCell(id), StrCell(routeTag), StrCell(directionTag), StrCell(stopTag), IntCell(p.predictedTime), StrCell(p.directionTag)]
  }

  /** The predictions cursor: the parser's predictions in the parser's
      order, numbered from 0; the direction_tag column is the requested
      direction and the endpoint column the prediction's own direction. */
  method PredictionsCursor(routeTag: string, directionTag: string, stopTag: string, predictions: seq<Db.Prediction>)
    returns (table: Table)
    ensures table.columns == PredictionColumns && |table.rows| == |predictions|
    ensures forall i :: 0 <= i < |predictions| ==>
      table.rows[i] == PredictionRow(i, routeTag, directionTag, stopTag, predictions[i])
  {
    var rows: seq<seq<Cell>> := [];
    var id := 0;
    for k := 0 to |predictions|
      invariant id == k && |rows| == k
      invariant forall i :: 0 <= i < k ==> rows[i] == PredictionRow(i, routeTag, directionTag, stopTag, predictions[i])
    {
      var prediction := predictions[k];
      rows := rows + [[IntCell(id), StrCell(routeTag), StrCell(directionTag), StrCell(stopTag),
        IntCell(prediction.predictedTime), StrCell(prediction.directionTag)]];
      id := id + 1;
    }
    table := Table(PredictionColumns, rows);
  }

  // -----------------------------------------------------------------------
  // The route list page

  /** One match of the route pattern on the route list page: the checkbox
      id and the text of the next cell. */
  datatype RouteMatch = RouteMatch(tag: string, description: string)

  /** The routes the matches file, numbered by position. */
  function MatchTable(matches: seq<RouteMatch>): map<string, Db.RouteEntry>
  {
    if matches == [] then map[]
    else
      var last := matches[|matches| - 1];
      MatchTable(matches[..|matches| - 1])[last.tag := Db.RouteEntry(|matches| - 1, last.description)]
  }

  /** The matches file one route per tag; the route filed under a tag is
      its last match, numbered by that match's position. */
  lemma {:induction false} MatchTableNumbersByPosition(matches: seq<RouteMatch>, j: nat)
    requires j < |matches|
    ensures matches[j].tag in MatchTable(matches)
    ensures (forall k :: j < k < |matches| ==> matches[k].tag != matches[j].tag) ==>
      MatchTable(matches)[matches[j].tag] == Db.RouteEntry(j, matches[j].description)
    decreases |matches|
  {
    if j < |matches| - 1 {
      var p := matches[..|matches| - 1];
      assert p[j] == matches[j];
      MatchTableNumbersByPosition(p, j);
    }
  }

  lemma {:induction false} MatchTableTags(matches: seq<RouteMatch>)
    ensures forall t :: t in MatchTable(matches) <==> exists j :: 0 <= j < |matches| && matches[j].tag == t
    decreases |matches|
  {
    if matches != [] {
      var p := matches[..|matches| - 1];
      MatchTableTags(p);
      forall t | t in MatchTable(matches)
        ensures exists j :: 0 <= j < |matches| && matches[j].tag == t
      {
        if t != matches[|matches| - 1].tag {
          assert t in MatchTable(p);
          var j :| 0 <= j < |p| && p[j].tag == t;
          assert matches[j].tag == t;
        }
      }
      forall t, j | 0 <= j < |matches| && matches[j].tag == t
        ensures t in MatchTable(matches)
      {
        MatchTableNumbersByPosition(matches, j);
      }
    }
  }

  lemma MatchTableSnoc(matches: seq<RouteMatch>, k: nat)
    requires k < |matches|
    ensures MatchTable(matches[..k + 1]) == MatchTable(matches[..k])[matches[k].tag := Db.RouteEntry(k, matches[k].description)]
  {
    assert matches[..k + 1][..k] == matches[..k];
  }

  lemma RouteEntriesAdd(routes: map<string, Db.Route>, before: map<string, Db.RouteEntry>, table: map<string, Db.RouteEntry>, route: Db.Route)
    requires Db.RouteEntries(routes) == before + table
    ensures Db.RouteEntries(routes[route.tag := route])
      == before + table[route.tag := Db.RouteEntry(route.upstreamIndex, route.description)]
  {
    var a := Db.RouteEntries(routes[route.tag := route]);
    var b := before + table[route.tag := Db.RouteEntry(route.upstreamIndex, route.description)];
    assert Db.RouteEntries(routes).Keys == routes.Keys;
    assert forall t :: t in a <==> t in b;
    forall t | t in a
      ensures a[t] == b[t]
    {
      if t != route.tag {
        assert a[t] == Db.RouteEntries(routes)[t];
      }
    }
  }

  /** parseRoutes: each match, numbered from 0 in page order, is added to
      the database, replacing a route with the same tag. */
  method ParseRoutes(db: Db.Db, matches: seq<RouteMatch>)
    requires db.Valid()
    modifies db
    ensures db.Valid() && db.stops == old(db.stops)
    ensures Db.RouteEntries(db.routes) == Db.RouteEntries(old(db.routes)) + MatchTable(matches)
  {
    for upstreamIndex := 0 to |matches|
      invariant db.Valid() && db.stops == old(db.stops)
      invariant Db.RouteEntries(db.routes) == Db.RouteEntries(old(db.routes)) + MatchTable(matches[..upstreamIndex])
    {
      var m := matches[upstreamIndex];
      var route := new Db.Route(upstreamIndex, m.tag, m.description);
      MatchTableSnoc(matches, upstreamIndex);
      RouteEntriesAdd(db.routes, Db.RouteEntries(old(db.routes)), MatchTable(matches[..upstreamIndex]), route);
      db.AddRoute(route);
    }
    assert matches[..|matches|] == matches;
  }

  // -----------------------------------------------------------------------
  // Fetching and parsing

  /** The requests the provider sends, by what they ask for. */
  datatype Request =
    | RouteListRequest
    | RouteConfigRequest(agency: string, routeTag: string)
    | PredictionsRequest(agency: string, routeTag: string, stopTag: string)

  /** What a request returned: the response body, or a failure of the
      HTTP client. */
  datatype Fetch = Fetched(input: Input) | FetchFailed

  /** What query() gives back: a cursor, null, or an exception. */
  datatype Answer = Rows(table: Table) | NoCursor | Throws(exception: Exception)

  const Agency: string := "sf-muni"

  /** The extra request getAndParse makes after a parse: the route list,
      for its cookie, exactly when the response said the cookie is
      missing. */
  function CookieRequests(state: ResultState): seq<Request>
  {
    if state == MissingCookie then [RouteListRequest] else []
  }

  /** What queryDirections answers: no cursor when the fetch or the parse
      fails, the escaping exception when one escapes, and otherwise the
      parser's directions, sorted by Direction order, those without
      useForUI dropped and the rest numbered from 0. */
  ghost predicate DirectionsAnswer(routeTag: string, fetch: Fetch, isDouble: string -> bool, answer: Answer,
                                   ordered: seq<Db.Direction>)
  {
    && (fetch.FetchFailed? ==> answer == NoCursor)
    && (fetch.Fetched? ==>
        var p := RouteConfigParser.FreshParse(fetch.input, isDouble);
        && (p.escaped.Some? ==> answer == Throws(p.escaped.value))
        && (p.escaped.None? && p.state != Success ==> answer == NoCursor)
        && (p.escaped.None? && p.state == Success ==>
              && answer == Rows(Table(DirectionColumns, DirectionRows(routeTag, Kept(ordered))))
              && Sorting.SortedBy(ordered, Db.DirectionOrder())
              && |ordered| == |p.tables.directions|
              && (forall d :: d in ordered ==>
                    d.tag in p.tables.directions && p.tables.directions[d.tag] == RouteConfigParser.DirectionRowOf(d))
              && (forall t :: t in p.tables.directions ==> exists d :: d in ordered && d.tag == t)))
  }

  /** What queryStops answers: the requested direction's stops in order,
      numbered from 0; NullPointerException for a direction the route
      does not have. */
  ghost predicate StopsAnswer(routeTag: string, directionTag: string, fetch: Fetch, isDouble: string -> bool,
                              answer: Answer)
  {
    && (fetch.FetchFailed? ==> answer == NoCursor)
    && (fetch.Fetched? ==>
        var p := RouteConfigParser.FreshParse(fetch.input, isDouble);
        && (p.escaped.Some? ==> answer == Throws(p.escaped.value))
        && (p.escaped.None? && p.state != Success ==> answer == NoCursor)
        && (p.escaped.None? && p.state == Success && directionTag !in p.tables.directions ==>
              answer == Throws(NullPointerException))
        && (p.escaped.None? && p.state == Success && directionTag in p.tables.directions ==>
              var stops := p.tables.directions[directionTag].stops;
              && answer.Rows? && answer.table.columns == StopColumns && |answer.table.rows| == |stops|
              && forall i :: 0 <= i < |stops| ==> answer.table.rows[i] == StopRow(i, routeTag, directionTag, stops[i])))
  }

  /** What queryPredictions answers: the parsed predictions in the
      parser's order, numbered from 0. */
  ghost predicate PredictionsAnswer(routeTag: string, directionTag: string, stopTag: string, fetch: Fetch,
                                    answer: Answer)
  {
    && (fetch.FetchFailed? ==> answer == NoCursor)
    && (fetch.Fetched? ==>
        var p := PredictionsParser.FreshParse(fetch.input);
        var predictions := p.collected.predictions;
        && (p.escaped.Some? ==> answer == Throws(p.escaped.value))
        && (p.escaped.None? && p.state != Success ==> answer == NoCursor)
        && (p.escaped.None? && p.state == Success ==>
              && answer.Rows? && answer.table.columns == PredictionColumns && |answer.table.rows| == |predictions|
              && forall i :: 0 <= i < |predictions| ==>
                   answer.table.rows[i] == PredictionRow(i, routeTag, directionTag, stopTag, predictions[i])))
  }

  class NextMuniProvider {
    /** Every request sent, in order. */
    var requests: seq<Request>
    const db: Db.Db

    constructor ()
      ensures requests == [] && fresh(db) && db.Valid() && db.routes == map[] && db.stops == map[]
    {
      requests := [];
      db := new Db.Db();
    }

    /** getAndParse's switch on the parser's state: only SUCCESS keeps the
        parser; MISSING_COOKIE fetches the route list once for its cookie
        and still gives up, and RETRY is not retried. */
    method AfterParse(state: ResultState) returns (keep: bool)
      modifies this
      ensures keep <==> state == Success
      ensures requests == old(requests) + CookieRequests(state)
    {
      match state {
        case Success =>
          return true;
        case MissingCookie =>
          requests := requests + [RouteListRequest];
          return false;
        case _ =>
          return false;
      }
    }

    /** getAndParseRoute: a route configuration request, parsed by a new
        parser that is returned only when it succeeded. */
    method GetAndParseRoute(routeTag: string, fetch: Fetch, isDouble: string -> bool, parseColor: string -> Option<int>)
      returns (parser: Option<RouteConfigParser.RouteConfigParser>, escaped: Option<Exception>)
      modifies this
      ensures fetch.FetchFailed? ==>
        parser.None? && escaped.None? && requests == old(requests) + [RouteConfigRequest(Agency, routeTag)]
      ensures fetch.Fetched? ==>
        var p := RouteConfigParser.FreshParse(fetch.input, isDouble);
        && escaped == p.escaped
        && (parser.Some? <==> p.escaped.None? && p.state == Success)
        && requests == old(requests) + [RouteConfigRequest(Agency, routeTag)]
             + (if p.escaped.None? then CookieRequests(p.state) else [])
      ensures parser.Some? ==>
        && fresh(parser.value) && parser.value.Valid() && parser.value.state == Success
        && fetch.Fetched? && parser.value.View() == RouteConfigParser.FreshParse(fetch.input, isDouble).tables
    {
      requests := requests + [RouteConfigRequest(Agency, routeTag)];
      if fetch.FetchFailed? {
        return None, None;
      }
      var p := new RouteConfigParser.RouteConfigParser();
      assert p.View() == RouteConfigParser.Config(map[], map[]);
      escaped := p.Parse(fetch.input, isDouble, parseColor);
      if escaped.Some? {
        return None, escaped;
      }
      var keep := AfterParse(p.state);
      parser := if keep then Some(p) else None;
    }

    /** getAndParse for a predictions request. */
    method GetAndParsePredictions(routeTag: string, stopTag: string, fetch: Fetch)
      returns (parser: Option<PredictionsParser.PredictionsParser>, escaped: Option<Exception>)
      modifies this
      ensures fetch.FetchFailed? ==>
        parser.None? && escaped.None? && requests == old(requests) + [PredictionsRequest(Agency, routeTag, stopTag)]
      ensures fetch.Fetched? ==>
        var p := PredictionsParser.FreshParse(fetch.input);
        && escaped == p.escaped
        && (parser.Some? <==> p.escaped.None? && p.state == Success)
        && requests == old(requests) + [PredictionsRequest(Agency, routeTag, stopTag)]
             + (if p.escaped.None? then CookieRequests(p.state) else [])
      ensures parser.Some? ==>
        && fresh(parser.value) && parser.value.state == Success
        && fetch.Fetched? && parser.value.View() == PredictionsParser.FreshParse(fetch.input).collected
    {
      requests := requests + [PredictionsRequest(Agency, routeTag, stopTag)];
      if fetch.FetchFailed? {
        return None, None;
      }
      var p := new PredictionsParser.PredictionsParser();
      escaped := p.Parse(fetch.input);
      if escaped.Some? {
        return None, escaped;
      }
      var keep := AfterParse(p.state);
      parser := if keep then Some(p) else None;
    }

    /** queryDirections. */
    method QueryDirections(routeTag: string, fetch: Fetch, isDouble: string -> bool, parseColor: string -> Option<int>)
      returns (answer: Answer, ghost ordered: seq<Db.Direction>)
      modifies this
      ensures DirectionsAnswer(routeTag, fetch, isDouble, answer, ordered)
    {
      ordered := [];
      var parser, escaped := GetAndParseRoute(routeTag, fetch, isDouble, parseColor);
      if escaped.Some? {
        return Throws(escaped.value), ordered;
      }
      if parser.None? {
        return NoCursor, ordered;
      }
      var directions := parser.value.directions;
      var table;
      table, ordered := DirectionsCursor(routeTag, directions);
      CursorCoversTable(directions, ordered);
      answer := Rows(table);
    }

    /** queryStops: the requested direction's stops; a direction the
        route does not have throws NullPointerException. */
    method QueryStops(routeTag: string, directionTag: string, fetch: Fetch, isDouble: string -> bool,
                      parseColor: string -> Option<int>)
      returns (answer: Answer)
      modifies this
      ensures StopsAnswer(routeTag, directionTag, fetch, isDouble, answer)
    {
      var parser, escaped := GetAndParseRoute(routeTag, fetch, isDouble, parseColor);
      if escaped.Some? {
        return Throws(escaped.value);
      }
      if parser.None? {
        return NoCursor;
      }
      var directions := parser.value.directions;
      if directionTag !in directions {
        return Throws(NullPointerException);
      }
      var table := StopsCursor(routeTag, directionTag, directions[directionTag].stops);
      answer := Rows(table);
    }

    /** queryPredictions: the predictions in the parser's order, not
        sorted. */
    method QueryPredictions(routeTag: string, directionTag: string, stopTag: string, fetch: Fetch)
      returns (answer: Answer)
      modifies this
      ensures PredictionsAnswer(routeTag, directionTag, stopTag, fetch, answer)
    {
      var parser, escaped := GetAndParsePredictions(routeTag, stopTag, fetch);
      if escaped.Some? {
        return Throws(escaped.value);
      }
      if parser.None? {
        return NoCursor;
      }
      var table := PredictionsCursor(routeTag, directionTag, stopTag, parser.value.predictions);
      answer := Rows(table);
    }

    /** query: dispatch on the URI; the routes cursor comes from the
        database. */
    method Query(segments: seq<string>, fetch: Fetch, isDouble: string -> bool, parseColor: string -> Option<int>)
      returns (r: Result<Answer, ProviderError>, ghost routeOrder: seq<Db.Route>, ghost directionOrder: seq<Db.Direction>)
      requires db.Valid()
      modifies this
      ensures QueryFor(segments).Err? ==> r == Err(IllegalArgument) && requests == old(requests)
      ensures QueryFor(segments).Ok? ==> r.Ok?
      // routes: every route of the database once, in Route order, numbered from 0
      ensures QueryFor(segments) == Ok(RoutesQuery) ==>
        && requests == old(requests)
        && (forall route :: route in routeOrder <==> route in db.routes.Values)
        && |routeOrder| == |db.routes.Values|
        && Sorting.SortedBy(routeOrder, Db.RouteOrder())
        && r.value.Rows? && r.value.table.columns == RouteColumns && |r.value.table.rows| == |routeOrder|
        && forall i :: 0 <= i < |routeOrder| ==> r.value.table.rows[i] == RouteRow(i, routeOrder[i])
      ensures QueryFor(segments).Ok? && QueryFor(segments).value.DirectionsQuery? ==>
        DirectionsAnswer(QueryFor(segments).value.routeTag, fetch, isDouble, r.value, directionOrder)
      ensures QueryFor(segments).Ok? && QueryFor(segments).value.StopsQuery? ==>
        var q := QueryFor(segments).value;
        StopsAnswer(q.routeTag, q.directionTag, fetch, isDouble, r.value)
      ensures QueryFor(segments).Ok? && QueryFor(segments).value.PredictionsQuery? ==>
        var q := QueryFor(segments).value;
        PredictionsAnswer(q.routeTag, q.directionTag, q.stopTag, fetch, r.value)
    {
      routeOrder, directionOrder := [], [];
      var q := QueryFor(segments);
      if q.Err? {
        r := Err(IllegalArgument);
        return;
      }
      match q.value {
        case RoutesQuery =>
          var table;
          table, routeOrder := RoutesCursor(db.routes);
          r := Ok(Rows(table));
        case DirectionsQuery(routeTag) =>
          var answer;
          answer, directionOrder := QueryDirections(routeTag, fetch, isDouble, parseColor);
          r := Ok(answer);
        case StopsQuery(routeTag, directionTag) =>
          var answer := QueryStops(routeTag, directionTag, fetch, isDouble, parseColor);
          r := Ok(answer);
        case PredictionsQuery(routeTag, directionTag, stopTag) =>
          var answer := QueryPredictions(routeTag, directionTag, stopTag, fetch);
          r := Ok(answer);
      }
    }
  }

  /** A cursor over the values of a parser's directions map lists each
      direction of its table once. */
  lemma CursorCoversTable(directions: map<string, Db.Direction>, ordered: seq<Db.Direction>)
    requires forall t :: t in directions ==> directions[t].tag == t
    requires forall d :: d in ordered <==> d in directions.Values
    requires |ordered| == |directions.Values|
    ensures |ordered| == |RouteConfigParser.DirectionTable(directions)|
    ensures forall d :: d in ordered ==>
      d.tag in RouteConfigParser.DirectionTable(directions)
      && RouteConfigParser.DirectionTable(directions)[d.tag] == RouteConfigParser.DirectionRowOf(d)
    ensures forall t :: t in RouteConfigParser.DirectionTable(directions) ==> exists d :: d in ordered && d.tag == t
  {
    DistinctTagsCount(directions);
    assert RouteConfigParser.DirectionTable(directions).Keys == directions.Keys;
    forall t | t in RouteConfigParser.DirectionTable(directions)
      ensures exists d :: d in ordered && d.tag == t
    {
      assert directions[t] in directions.Values;
    }
  }

  /** The directions of a parser are filed under their own tags, so there
      are as many distinct directions as tags. */
  lemma DistinctTagsCount(directions: map<string, Db.Direction>)
    requires forall t :: t in directions ==> directions[t].tag == t
    ensures |directions.Values| == |directions|
    ensures forall d :: d in directions.Values ==> d.tag in directions && directions[d.tag] == d
  {
    var keys := directions.Keys;
    assert directions.Values == set t | t in keys :: directions[t];
    TagMapCardinality(directions, keys);
  }

  lemma {:induction false} TagMapCardinality(directions: map<string, Db.Direction>, keys: set<string>)
    requires keys <= directions.Keys
    requires forall t :: t in directions ==> directions[t].tag == t
    ensures |set t | t in keys :: directions[t]| == |keys|
    decreases keys
  {
    if keys != {} {
      var t :| t in keys;
      var rest := keys - {t};
      TagMapCardinality(directions, rest);
      assert (set u | u in keys :: directions[u]) == (set u | u in rest :: directions[u]) + {directions[t]};
      assert directions[t] !in (set u | u in rest :: directions[u]);
    }
  }
}
