/** The cached database of NextBus route and stop information
    (Db.java): the entities, their orders, a route table keyed by tag and a
    stop table keyed by stop tag. */
module Db {
  import opened JavaLang
  import Sorting

  /** A latitude or longitude as the feed spells it; the model never does
      arithmetic on it. */
  type Coordinate = string

  /** One transit line. Its identity fields are fixed at construction; the
      directions map and the update time are shared mutable state. */
  class Route {
    const upstreamIndex: int
    const tag: string
    const description: string
    /** System.currentTimeMillis() of the last directions update. */
    var directionsUpdatedMs: int
    var directions: map<string, Direction>

    constructor (upstreamIndex: int, tag: string, description: string)
      ensures this.upstreamIndex == upstreamIndex && this.tag == tag && this.description == description
      ensures directions == map[] && directionsUpdatedMs == 0
    {
      this.upstreamIndex := upstreamIndex;
      this.tag := tag;
      this.description := description;
      directionsUpdatedMs := 0;
      directions := map[];
    }

    /** Orders by upstream index, then tag, then description. */
    function CompareTo(another: Route): int
    {
      var byIndex := CompareInts(upstreamIndex, another.upstreamIndex);
      if byIndex != 0 then byIndex
      else
        var byTag := CompareStrings(tag, another.tag);
        if byTag != 0 then byTag else CompareStrings(description, another.description)
    }
  }

  /** What the route table holds for a tag apart from the Route object's
      identity: its upstream index and its description. */
  datatype RouteEntry = RouteEntry(upstreamIndex: int, description: string)

  /** The entries a route table stands for, tag by tag. */
  function RouteEntries(routes: map<string, Route>): map<string, RouteEntry>
  {
    map t | t in routes :: RouteEntry(routes[t].upstreamIndex, routes[t].description)
  }

  /** One direction of a route; its stop list cannot change after
      construction. */
  datatype Direction = Direction(
    upstreamIndex: int,
    tag: string,
    title: string,
    name: string,
    useForUI: bool,
    stops: seq<Stop>)
  {
    /** Orders by upstream index, then tag. */
    function CompareTo(another: Direction): int
    {
      var byIndex := CompareInts(upstreamIndex, another.upstreamIndex);
      if byIndex != 0 then byIndex else CompareStrings(tag, another.tag)
    }
  }

  /** A physical stop. Which routes serve it is recorded in place. */
  class Stop {
    /** The stop id that the route-config parser passes to the constructor
        in addition to the four fields the entity declares. */
    const id: int
    const tag: int
    const title: string
    const lat: Coordinate
    const lon: Coordinate
    var routesThatStopHere: set<string>

    constructor (id: int, tag: int, title: string, lat: Coordinate, lon: Coordinate)
      ensures this.id == id && this.tag == tag && this.title == title && this.lat == lat && this.lon == lon
      ensures routesThatStopHere == {}
    {
      this.id := id;
      this.tag := tag;
      this.title := title;
      this.lat := lat;
      this.lon := lon;
      routesThatStopHere := {};
    }

    /** A fresh list holding each serving route once. The caller gets a
        value, so changing it cannot change the stop. */
    method RoutesThatStopHere() returns (r: seq<string>)
      ensures forall t :: t in r <==> t in routesThatStopHere
      ensures NoDuplicates(r) && |r| == |routesThatStopHere|
    {
      r := ListOf(routesThatStopHere);
    }

    method AddRoute(routeTag: string)
      modifies this
      ensures routesThatStopHere == old(routesThatStopHere) + {routeTag}
    {
      routesThatStopHere := routesThatStopHere + {routeTag};
    }
  }

  /** One arrival prediction at a stop. */
  datatype Prediction = Prediction(
    routeTag: string,
    predictedTime: int,
    isDeparture: bool,
    directionTag: string,
    block: string)
  {
    /** Orders by predicted time, then route tag, then direction tag. */
    function CompareTo(another: Prediction): int
    {
      var byTime := CompareInts(predictedTime, another.predictedTime);
      if byTime != 0 then byTime
      else
        var byRoute := CompareStrings(routeTag, another.routeTag);
        if byRoute != 0 then byRoute else CompareStrings(directionTag, another.directionTag)
    }
  }

  // -----------------------------------------------------------------------
  // The three orders

  lemma RouteOrderZeroIff(a: Route, b: Route)
    ensures a.CompareTo(b) == 0 <==>
      a.upstreamIndex == b.upstreamIndex && a.tag == b.tag && a.description == b.description
  {
    CompareStringsZeroIff(a.tag, b.tag);
    CompareStringsZeroIff(a.description, b.description);
  }

  lemma RouteOrderAntisymmetric(a: Route, b: Route)
    ensures a.CompareTo(b) == -b.CompareTo(a)
  {
    CompareStringsAntisymmetric(a.tag, b.tag);
    CompareStringsAntisymmetric(a.description, b.description);
  }

  lemma RouteOrderTransitive(a: Route, b: Route, c: Route)
    requires a.CompareTo(b) <= 0 && b.CompareTo(c) <= 0
    ensures a.CompareTo(c) <= 0
  {
    CompareStringsTransitive(a.tag, b.tag, c.tag);
    CompareStringsTransitive(a.description, b.description, c.description);
    CompareStringsZeroIff(a.tag, b.tag);
    CompareStringsZeroIff(b.tag, c.tag);
  }

  function RouteOrder(): (Route, Route) -> int
  {
    (a: Route, b: Route) => a.CompareTo(b)
  }

  lemma RouteOrderIsComparator(routes: set<Route>)
    ensures Sorting.IsComparatorOn(routes, RouteOrder())
  {
    forall a, b | a in routes && b in routes
      ensures RouteOrder()(a, b) == -RouteOrder()(b, a)
    {
      RouteOrderAntisymmetric(a, b);
    }
    forall a, b, c | a in routes && b in routes && c in routes && RouteOrder()(a, b) <= 0 && RouteOrder()(b, c) <= 0
      ensures RouteOrder()(a, c) <= 0
    {
      RouteOrderTransitive(a, b, c);
    }
  }

  lemma DirectionOrderZeroIff(a: Direction, b: Direction)
    ensures a.CompareTo(b) == 0 <==> a.upstreamIndex == b.upstreamIndex && a.tag == b.tag
  {
    CompareStringsZeroIff(a.tag, b.tag);
  }

  lemma DirectionOrderAntisymmetric(a: Direction, b: Direction)
    ensures a.CompareTo(b) == -b.CompareTo(a)
  {
    CompareStringsAntisymmetric(a.tag, b.tag);
  }

  lemma DirectionOrderTransitive(a: Direction, b: Direction, c: Direction)
    requires a.CompareTo(b) <= 0 && b.CompareTo(c) <= 0
    ensures a.CompareTo(c) <= 0
  {
    CompareStringsTransitive(a.tag, b.tag, c.tag);
  }

  function DirectionOrder(): (Direction, Direction) -> int
  {
    (a: Direction, b: Direction) => a.CompareTo(b)
  }

  lemma DirectionOrderIsComparator(directions: set<Direction>)
    ensures Sorting.IsComparatorOn(directions, DirectionOrder())
  {
    forall a, b | a in directions && b in directions
      ensures DirectionOrder()(a, b) == -DirectionOrder()(b, a)
    {
      DirectionOrderAntisymmetric(a, b);
    }
    forall a, b, c | a in directions && b in directions && c in directions && DirectionOrder()(a, b) <= 0 && DirectionOrder()(b, c) <= 0
      ensures DirectionOrder()(a, c) <= 0
    {
      DirectionOrderTransitive(a, b, c);
    }
  }

  lemma PredictionOrderZeroIff(a: Prediction, b: Prediction)
    ensures a.CompareTo(b) == 0 <==>
      a.predictedTime == b.predictedTime && a.routeTag == b.routeTag && a.directionTag == b.directionTag
  {
    CompareStringsZeroIff(a.routeTag, b.routeTag);
    CompareStringsZeroIff(a.directionTag, b.directionTag);
  }

  lemma PredictionOrderAntisymmetric(a: Prediction, b: Prediction)
    ensures a.CompareTo(b) == -b.CompareTo(a)
  {
    CompareStringsAntisymmetric(a.routeTag, b.routeTag);
    CompareStringsAntisymmetric(a.directionTag, b.directionTag);
  }

  lemma PredictionOrderTransitive(a: Prediction, b: Prediction, c: Prediction)
    requires a.CompareTo(b) <= 0 && b.CompareTo(c) <= 0
    ensures a.CompareTo(c) <= 0
  {
    CompareStringsTransitive(a.routeTag, b.routeTag, c.routeTag);
    CompareStringsTransitive(a.directionTag, b.directionTag, c.directionTag);
    CompareStringsZeroIff(a.routeTag, b.routeTag);
    CompareStringsZeroIff(b.routeTag, c.routeTag);
  }

  /** The predicted time decides the order whenever the times differ. */
  lemma PredictionOrderByTime(a: Prediction, b: Prediction)
    requires a.predictedTime < b.predictedTime
    ensures a.CompareTo(b) < 0 && b.CompareTo(a) > 0
  {
  }

  // -----------------------------------------------------------------------
  // The tables

  class Db {
    var routes: map<string, Route>
    /** Stop tag -> Stop. */
    var stops: map<int, Stop>

    /** Every route is filed under its own tag, every stop under its own
        stop tag. */
    ghost predicate Valid()
      reads this
    {
      && (forall t :: t in routes ==> routes[t].tag == t)
      && (forall k :: k in stops ==> stops[k].tag == k)
    }

    constructor ()
      ensures Valid() && routes == map[] && stops == map[]
    {
      routes := map[];
      stops := map[];
    }

    /** Files the route under its tag, replacing any route with that tag. */
    method AddRoute(newRoute: Route)
      requires Valid()
      modifies this
      ensures Valid()
      ensures routes == old(routes)[newRoute.tag := newRoute] && stops == old(stops)
      ensures GetRoute(newRoute.tag) == Some(newRoute)
      ensures forall t :: t != newRoute.tag ==> GetRoute(t) == old(GetRoute(t))
    {
      routes := routes[newRoute.tag := newRoute];
    }

    /** The route filed under the tag, or null. */
    function GetRoute(routeTag: string): (r: Option<Route>)
      requires Valid()
      reads this
      ensures r.Some? <==> routeTag in routes
      ensures r.Some? ==> r.value == routes[routeTag] && r.value.tag == routeTag
    {
      if routeTag in routes then Some(routes[routeTag]) else None
    }

    /** The stop filed under the stop tag, or null. */
    function GetStop(stopTag: int): (r: Option<Stop>)
      requires Valid()
      reads this
      ensures r.Some? <==> stopTag in stops
      ensures r.Some? ==> r.value == stops[stopTag] && r.value.tag == stopTag
    {
      if stopTag in stops then Some(stops[stopTag]) else None
    }

    /** Files the stop unless a stop with its tag is already filed, marks
        the filed (canonical) stop as served by the route and returns it. */
    method AddStop(stop: Stop, routeTag: string) returns (current: Stop)
      requires Valid()
      modifies this, if stop.tag in stops then stops[stop.tag] else stop
      ensures Valid()
      ensures current == if stop.tag in old(stops) then old(stops[stop.tag]) else stop
      ensures stops == old(stops)[stop.tag := current] && routes == old(routes)
      ensures GetStop(stop.tag) == Some(current)
      ensures current.routesThatStopHere == old(current.routesThatStopHere) + {routeTag}
      ensures old(stop.tag in stops && routeTag in stops[stop.tag].routesThatStopHere) ==>
        stops == old(stops) && current.routesThatStopHere == old(current.routesThatStopHere)
    {
      if stop.tag in stops {
        current := stops[stop.tag];
      } else {
        stops := stops[stop.tag := stop];
        current := stop;
      }
      current.AddRoute(routeTag);
    }
  }
}
