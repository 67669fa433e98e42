/** The parser for the routeConfig feed (RouteConfigParser.java): the one
    <route> element's attributes and colors, its <stop> elements keyed by
    stop tag, and its <direction> elements keyed by direction tag, each with
    the list of stops it visits. */
module RouteConfigParser {
  import opened JavaLang
  import opened XmlPull
  import opened ChildScan
  import opened Parser
  import Db

  /** Color.BLACK and Color.WHITE as Android's signed ARGB ints
      (0xFF000000 and 0xFFFFFFFF). */
  const Black: int := -16777216
  const White: int := -1

  /** parseColorDefault: a missing color gives the fallback; otherwise a
      "#" is put in front unless one is there, and Color.parseColor, passed
      in as parseColor (None where it throws IllegalArgumentException),
      decides, with the fallback for a color it rejects. */
  function ParseColorDefault(color: Option<string>, fallback: int, parseColor: string -> Option<int>): int
  {
    if color.None? then fallback
    else
      var spelled := if |color.value| > 0 && color.value[0] == '#' then color.value else "#" + color.value;
      var parsed := parseColor(spelled);
      if parsed.Some? then parsed.value else fallback
  }

  /** The feed may spell a color with or without its "#": both give the
      same color. A missing color, or one parseColor rejects, gives the
      fallback. */
  lemma ColorHashIsOptional(c: string, fallback: int, parseColor: string -> Option<int>)
    ensures ParseColorDefault(Some("#" + c), fallback, parseColor) == ParseColorDefault(Some(c), fallback, parseColor)
      || (|c| > 0 && c[0] == '#')
    ensures ParseColorDefault(None, fallback, parseColor) == fallback
    ensures parseColor("#" + c).None? ==> ParseColorDefault(Some("#" + c), fallback, parseColor) == fallback
    ensures parseColor("#" + c).Some? ==> ParseColorDefault(Some("#" + c), fallback, parseColor) == parseColor("#" + c).value
  {
    assert ("#" + c)[0] == '#';
  }

  // -----------------------------------------------------------------------
  // What the parser records, as values

  /** The fields of a Db.Stop the parser sets. */
  datatype StopRow = StopRow(id: int, tag: int, title: string, lat: Db.Coordinate, lon: Db.Coordinate)

  /** A Db.Direction with each of its stops seen as a StopRow. */
  datatype DirectionRow = DirectionRow(
    upstreamIndex: int, tag: string, title: string, name: string, useForUI: bool, stops: seq<StopRow>)

  /** The stop table and the direction table. */
  datatype Config = Config(stops: map<int, StopRow>, directions: map<string, DirectionRow>)

  function RowOf(s: Db.Stop): StopRow
  {
    StopRow(s.id, s.tag, s.title, s.lat, s.lon)
  }

  function RowsOf(stops: seq<Db.Stop>): (r: seq<StopRow>)
    ensures |r| == |stops| && forall i :: 0 <= i < |stops| ==> r[i] == RowOf(stops[i])
  {
    seq(|stops|, i requires 0 <= i < |stops| => RowOf(stops[i]))
  }

  function StopTable(stops: map<int, Db.Stop>): map<int, StopRow>
  {
    map k | k in stops :: RowOf(stops[k])
  }

  lemma StopTableUpdate(stops: map<int, Db.Stop>, stop: Db.Stop)
    ensures StopTable(stops[stop.tag := stop]) == StopTable(stops)[stop.tag := RowOf(stop)]
  {
  }

  function DirectionRowOf(d: Db.Direction): DirectionRow
  {
    DirectionRow(d.upstreamIndex, d.tag, d.title, d.name, d.useForUI, RowsOf(d.stops))
  }

  function DirectionTable(directions: map<string, Db.Direction>): map<string, DirectionRow>
  {
    map t | t in directions :: DirectionRowOf(directions[t])
  }

  // -----------------------------------------------------------------------
  // parseStop

  /** The stop a <stop> element describes: tag and stopId must be decimal
      ints (NumberFormatException), lat and lon present (NullPointerException)
      and doubles as the isDouble parameter says (NumberFormatException). */
  function ParseStopRow(e: Element, isDouble: string -> bool): Result<StopRow, Exception>
  {
    var tag := ParseInt(GetAttr(e, "tag"));
    var id := ParseInt(GetAttr(e, "stopId"));
    var lat := GetAttr(e, "lat");
    var lon := GetAttr(e, "lon");
    if tag.None? || id.None? then Err(NumberFormatException)
    else if lat.None? then Err(NullPointerException)
    else if !isDouble(lat.value) then Err(NumberFormatException)
    else if lon.None? then Err(NullPointerException)
    else if !isDouble(lon.value) then Err(NumberFormatException)
    else Ok(StopRow(id.value, tag.value, AttrOrEmpty(e, "title"), lat.value, lon.value))
  }

  /** parseStop: a stop is filed under its tag, replacing any stop with
      that tag, and then the element is skipped. */
  function StopStep(isDouble: string -> bool, s: Config, e: Element): Scan<Config>
  {
    var row := ParseStopRow(e, isDouble);
    if row.Err? then Scan(s, Some(row.error))
    else
      var filed := s.(stops := s.stops[row.value.tag := row.value]);
      var skipped := SkipElement(e);
      Scan(filed, if skipped.Some? then Some(Checked(skipped.value)) else None)
  }

  lemma DirectionTableUpdate(directions: map<string, Db.Direction>, d: Db.Direction)
    ensures DirectionTable(directions[d.tag := d]) == DirectionTable(directions)[d.tag := DirectionRowOf(d)]
  {
  }

  lemma DirectionTableSize(directions: map<string, Db.Direction>)
    ensures |DirectionTable(directions)| == |directions|
  {
    assert DirectionTable(directions).Keys == directions.Keys;
  }

  // -----------------------------------------------------------------------
  // parseDirection

  /** The stop a <stop> inside a direction refers to: its tag resolved
      against the stops parsed so far; a non-numeric or unknown tag refers
      to nothing. */
  function StopFor(e: Element, stops: map<int, StopRow>): seq<StopRow>
  {
    var k := ParseInt(GetAttr(e, "tag"));
    if k.Some? && k.value in stops then [stops[k.value]] else []
  }

  /** Two stretches of the walk one after the other. */
  function Then(a: Result<seq<StopRow>, Fault>, b: Result<seq<StopRow>, Fault>): Result<seq<StopRow>, Fault>
  {
    if a.Err? then a else if b.Err? then b else Ok(a.value + b.value)
  }

  lemma ThenAssociative(a: Result<seq<StopRow>, Fault>, b: Result<seq<StopRow>, Fault>, c: Result<seq<StopRow>, Fault>)
    ensures Then(Then(a, b), c) == Then(a, Then(b, c))
  {
    if a.Ok? && b.Ok? && c.Ok? {
      assert a.value + b.value + c.value == a.value + (b.value + c.value);
    }
  }

  /** The direction's content in document order: every <stop> at any depth
      contributes the stop it refers to and is then skipped (a break inside
      it propagates); any other element is entered; text and malformed
      content are passed over, as the loop catches XmlPullParserException;
      a failing stream propagates as IOException. */
  function WalkStops(nodes: seq<Node>, stops: map<int, StopRow>): Result<seq<StopRow>, Fault>
    decreases nodes
  {
    if nodes == [] then Ok([])
    else
      var n := nodes[0];
      assert n in nodes;
      Then(WalkStopsNode(n, stops), WalkStops(nodes[1..], stops))
  }

  function WalkStopsNode(n: Node, stops: map<int, StopRow>): Result<seq<StopRow>, Fault>
    decreases n
  {
    match n
    case Text(_) => Ok([])
    case Broken(f) => if f == Unreadable then Err(Unreadable) else Ok([])
    case Elem(e) =>
      if e.name == "stop" then
        var skipped := SkipElement(e);
        if skipped.Some? then Err(skipped.value) else Ok(StopFor(e, stops))
      else WalkStops(e.children, stops)
  }

  /** Every stop a direction lists is one of the stops parsed before it. */
  lemma {:induction false} WalkFindsParsedStops(nodes: seq<Node>, stops: map<int, StopRow>)
    ensures WalkStops(nodes, stops).Ok? ==> forall r :: r in WalkStops(nodes, stops).value ==> r in stops.Values
    decreases nodes
  {
    if nodes != [] {
      var n := nodes[0];
      assert n in nodes;
      WalkNodeFindsParsedStops(n, stops);
      WalkFindsParsedStops(nodes[1..], stops);
    }
  }

  lemma {:induction false} WalkNodeFindsParsedStops(n: Node, stops: map<int, StopRow>)
    ensures WalkStopsNode(n, stops).Ok? ==> forall r :: r in WalkStopsNode(n, stops).value ==> r in stops.Values
    decreases n
  {
    if n.Elem? && n.element.name != "stop" {
      WalkFindsParsedStops(n.element.children, stops);
    }
  }

  /** Content without a failing stream and without a break inside a <stop>
      is walked to its end: malformed content elsewhere is tolerated. */
  lemma {:induction false} WalkToleratesMalformed(nodes: seq<Node>, stops: map<int, StopRow>)
    requires !HasUnreadable(nodes) && !HasBrokenStop(nodes)
    ensures WalkStops(nodes, stops).Ok?
    decreases nodes
  {
    if nodes != [] {
      var n := nodes[0];
      assert n in nodes;
      WalkNodeToleratesMalformed(n, stops);
      WalkToleratesMalformed(nodes[1..], stops);
    }
  }

  lemma {:induction false} WalkNodeToleratesMalformed(n: Node, stops: map<int, StopRow>)
    requires !HasUnreadableNode(n) && !HasBrokenStopNode(n)
    ensures WalkStopsNode(n, stops).Ok?
    decreases n
  {
    if n.Elem? && n.element.name != "stop" {
      WalkToleratesMalformed(n.element.children, stops);
    }
  }

  /** The stream fails somewhere in the content. */
  predicate HasUnreadable(nodes: seq<Node>)
    decreases nodes
  {
    if nodes == [] then false
    else
      var n := nodes[0];
      assert n in nodes;
      HasUnreadableNode(n) || HasUnreadable(nodes[1..])
  }

  predicate HasUnreadableNode(n: Node)
    decreases n
  {
    match n
    case Broken(f) => f == Unreadable
    case Text(_) => false
    case Elem(e) => HasUnreadable(e.children)
  }

  /** Some <stop> (at any depth) holds a break. */
  predicate HasBrokenStop(nodes: seq<Node>)
    decreases nodes
  {
    if nodes == [] then false
    else
      var n := nodes[0];
      assert n in nodes;
      HasBrokenStopNode(n) || HasBrokenStop(nodes[1..])
  }

  predicate HasBrokenStopNode(n: Node)
    decreases n
  {
    n.Elem? && (if n.element.name == "stop" then SkipElement(n.element).Some? else HasBrokenStop(n.element.children))
  }

  /** parseDirection: the direction is filed under its tag with, as upstream
      index, the number of directions filed before the put; a break that
      escapes the walk leaves the table as it was. */
  function DirectionStep(s: Config, e: Element): Scan<Config>
  {
    var walk := WalkStops(e.children, s.stops);
    if walk.Err? then Scan(s, Some(Checked(walk.error)))
    else
      var tag := AttrOrEmpty(e, "tag");
      var d := DirectionRow(|s.directions|, tag, AttrOrEmpty(e, "title"), AttrOrEmpty(e, "name"),
        ParseBoolean(GetAttr(e, "useForUI")), walk.value);
      Scan(s.(directions := s.directions[tag := d]), None)
  }

  /** A direction with a new tag gets the next index and one more entry;
      one with a tag already filed replaces that direction and keeps the
      count. */
  lemma DirectionIndexing(s: Config, e: Element)
    requires WalkStops(e.children, s.stops).Ok?
    ensures var after := DirectionStep(s, e).state.directions;
      && AttrOrEmpty(e, "tag") in after
      && after[AttrOrEmpty(e, "tag")].upstreamIndex == |s.directions|
      && (AttrOrEmpty(e, "tag") !in s.directions ==> |after| == |s.directions| + 1)
      && (AttrOrEmpty(e, "tag") in s.directions ==> |after| == |s.directions|)
      && forall t :: t in s.directions && t != AttrOrEmpty(e, "tag") ==> t in after && after[t] == s.directions[t]
  {
  }

  // -----------------------------------------------------------------------
  // parseBody

  /** One child of <route>: <stop>, <direction>, or anything else, which is
      skipped. */
  function RouteChildStep(isDouble: string -> bool, s: Config, e: Element): Scan<Config>
  {
    if e.name == "stop" then StopStep(isDouble, s, e)
    else if e.name == "direction" then DirectionStep(s, e)
    else
      var skipped := SkipElement(e);
      Scan(s, if skipped.Some? then Some(Checked(skipped.value)) else None)
  }

  function RouteChild(isDouble: string -> bool): (Config, Element) -> Scan<Config>
  {
    (s: Config, e: Element) => RouteChildStep(isDouble, s, e)
  }

  /** The first child element of <body>, which must be a <route>; the
      content after that <route> is never read. */
  function RouteElementOf(body: Element): (r: Result<Element, Fault>)
    ensures r.Ok? ==> r.value.name == "route" && Elem(r.value) in body.children
  {
    var first := NextTag(body.children, 0);
    if first.Threw? then Err(first.fault)
    else if first.AtEnd? || body.children[first.index].element.name != "route" then Err(Malformed)
    else Ok(body.children[first.index].element)
  }

  /** Whatever follows the <route> element in <body> does not change which
      route is read. */
  lemma {:induction false} RestOfBodyIgnored(children: seq<Node>, rest: seq<Node>, from: nat)
    requires from <= |children| && NextTag(children, from).AtStart?
    ensures NextTag(children + rest, from) == NextTag(children, from)
    decreases |children| - from
  {
    if !children[from].Elem? {
      RestOfBodyIgnored(children, rest, from + 1);
    }
  }

  /** The route-level fields, which are set once from the <route> element. */
  datatype Header = Header(
    tag: Option<string>, routeCode: Option<string>, title: Option<string>, shortTitle: Option<string>,
    color: int, oppositeColor: int)

  function HeaderOf(route: Element, parseColor: string -> Option<int>): Header
  {
    Header(GetAttr(route, "tag"), GetAttr(route, "routeCode"), GetAttr(route, "title"), GetAttr(route, "shortTitle"),
      ParseColorDefault(GetAttr(route, "color"), Black, parseColor),
      ParseColorDefault(GetAttr(route, "oppositeColor"), White, parseColor))
  }

  /** What parse() leaves in a new parser: its state, its two tables and
      the runtime exception that escapes, if any. */
  datatype Parsed = Parsed(state: ResultState, tables: Config, escaped: Option<Exception>)

  function FreshParse(input: Input, isDouble: string -> bool): Parsed
  {
    match Begin(input)
    case Finished(s) => Parsed(s, Config(map[], map[]), None)
    case ToBody(body) =>
      var route := RouteElementOf(body);
      if route.Err? then Parsed(CaughtState(route.error), Config(map[], map[]), None)
      else
        var scan := FoldChildren(RouteChild(isDouble), Config(map[], map[]), route.value.children);
        Parsed(StateAfterBody(scan.thrown), scan.state, Escaped(scan.thrown))
  }

  class RouteConfigParser {
    var state: ResultState
    var copyright: Option<string>
    var tag: Option<string>
    var routeCode: Option<string>
    var title: Option<string>
    var shortTitle: Option<string>
    var color: int
    var oppositeColor: int
    /** Stop tag -> stop. */
    var stops: map<int, Db.Stop>
    /** Direction tag -> direction. */
    var directions: map<string, Db.Direction>

    /** Every stop is filed under its own stop tag and every direction
        under its own tag. */
    ghost predicate Valid()
      reads this
    {
      && (forall k :: k in stops ==> stops[k].tag == k)
      && (forall t :: t in directions ==> directions[t].tag == t)
    }

    /** The two tables as values. */
    function View(): Config
      reads this
    {
      Config(StopTable(stops), DirectionTable(directions))
    }

    function CurrentHeader(): Header
      reads this
    {
      Header(tag, routeCode, title, shortTitle, color, oppositeColor)
    }

    constructor ()
      ensures Valid() && state == NotDone && copyright == None
      ensures stops == map[] && directions == map[]
    {
      state := NotDone;
      copyright := None;
      tag, routeCode, title, shortTitle := None, None, None, None;
      color, oppositeColor := 0, 0;
      stops := map[];
      directions := map[];
    }

    /** parse(): once only; dispatches on the root and runs parseBody. */
    method Parse(input: Input, isDouble: string -> bool, parseColor: string -> Option<int>)
      returns (escaped: Option<Exception>)
      requires Valid()
      modifies this
      ensures Valid()
      ensures old(state) != NotDone || Begin(input).Finished? ==>
        && state == (if old(state) != NotDone then old(state) else Begin(input).state)
        && View() == old(View()) && CurrentHeader() == old(CurrentHeader()) && copyright == old(copyright)
        && escaped == None
      ensures old(state) == NotDone && Begin(input).ToBody? ==>
        var route := RouteElementOf(input.root);
        && copyright == GetAttr(input.root, "copyright")
        && (route.Err? ==>
              state == CaughtState(route.error) && escaped == None
              && View() == old(View()) && CurrentHeader() == old(CurrentHeader()))
        && (route.Ok? ==>
              var scan := FoldChildren(RouteChild(isDouble), old(View()), route.value.children);
              && CurrentHeader() == HeaderOf(route.value, parseColor)
              && View() == scan.state
              && state == StateAfterBody(scan.thrown) && escaped == Escaped(scan.thrown))
    {
      if state != NotDone {
        return None;
      }
      var start := Begin(input);
      match start {
        case Finished(s) =>
          state := s;
          escaped := None;
        case ToBody(body) =>
          var thrown := ParseBody(body, isDouble, parseColor);
          if thrown.Some? && thrown.value.Checked? {
            state := CaughtState(thrown.value.fault);
          }
          escaped := Escaped(thrown);
      }
    }

    /** parseBody: the <route> element's fields, then its children until
      its end tag; SUCCESS only after that end tag. */
    method ParseBody(body: Element, isDouble: string -> bool, parseColor: string -> Option<int>)
      returns (thrown: Option<Exception>)
      requires Valid() && body.name == "body"
      modifies this
      ensures Valid()
      ensures copyright == GetAttr(body, "copyright")
      ensures RouteElementOf(body).Err? ==>
        && thrown == Some(Checked(RouteElementOf(body).error)) && state == old(state)
        && View() == old(View()) && CurrentHeader() == old(CurrentHeader())
      ensures RouteElementOf(body).Ok? ==>
        && CurrentHeader() == HeaderOf(RouteElementOf(body).value, parseColor)
        && Scan(View(), thrown) == FoldChildren(RouteChild(isDouble), old(View()), RouteElementOf(body).value.children)
        && (thrown.None? ==> state == Success)
        && (thrown.Some? ==> state == old(state))
    {
      copyright := GetAttr(body, "copyright");
      var first := NextTag(body.children, 0);
      if first.Threw? {
        return Some(Checked(first.fault));
      }
      if first.AtEnd? || body.children[first.index].element.name != "route" {
        return Some(Checked(Malformed));
      }
      var route := body.children[first.index].element;
      assert RouteElementOf(body) == Ok(route);
      thrown := ParseRoute(route, isDouble, parseColor);
    }

    /** The <route> element: its attributes, then its children; SUCCESS
        when they are read without an exception. */
    method ParseRoute(route: Element, isDouble: string -> bool, parseColor: string -> Option<int>)
      returns (thrown: Option<Exception>)
      requires Valid()
      modifies this
      ensures Valid() && copyright == old(copyright)
      ensures CurrentHeader() == HeaderOf(route, parseColor)
      ensures Scan(View(), thrown) == FoldChildren(RouteChild(isDouble), old(View()), route.children)
      ensures thrown.None? ==> state == Success
      ensures thrown.Some? ==> state == old(state)
    {
      SetHeader(HeaderOf(route, parseColor));
      thrown := ParseRouteChildren(route, isDouble);
      if thrown.None? {
        state := Success;
      }
    }

    /** Sets the header fields, as read from the <route> attributes. */
    method SetHeader(h: Header)
      requires Valid()
      modifies this
      ensures Valid() && View() == old(View()) && state == old(state) && copyright == old(copyright)
      ensures CurrentHeader() == h
    {
      tag, routeCode, title, shortTitle := h.tag, h.routeCode, h.title, h.shortTitle;
      color, oppositeColor := h.color, h.oppositeColor;
    }

    /** The loop over the <route> element's children. */
    method ParseRouteChildren(route: Element, isDouble: string -> bool) returns (thrown: Option<Exception>)
      requires Valid()
      modifies this`stops, this`directions
      ensures Valid()
      ensures Scan(View(), thrown) == FoldChildren(RouteChild(isDouble), old(View()), route.children)
    {
      var nodes := route.children;
      ghost var s0 := View();
      var i := 0;
      while true
        invariant 0 <= i <= |nodes|
        invariant Valid()
        invariant FoldChildren(RouteChild(isDouble), s0, nodes[..i]) == Scan(View(), None)
        decreases |nodes| - i
      {
        var next := NextTag(nodes, i);
        if next.AtEnd? {
          FoldAtEnd(RouteChild(isDouble), s0, nodes, i);
          return None;
        }
        if next.Threw? {
          FoldAtThrow(RouteChild(isDouble), s0, nodes, i);
          return Some(Checked(next.fault));
        }
        var j := next.index;
        thrown := ParseNextRouteChild(nodes, i, isDouble, s0);
        if thrown.Some? {
          FoldSticky(RouteChild(isDouble), s0, nodes, j + 1);
          return;
        }
        i := j + 1;
      }
    }

    /** The child element nextTag found, handled: one more step of the
        fold. */
    method ParseNextRouteChild(nodes: seq<Node>, i: nat, isDouble: string -> bool, ghost s0: Config)
      returns (thrown: Option<Exception>)
      requires Valid() && i <= |nodes| && NextTag(nodes, i).AtStart?
      requires FoldChildren(RouteChild(isDouble), s0, nodes[..i]) == Scan(View(), None)
      modifies this`stops, this`directions
      ensures Valid()
      ensures FoldChildren(RouteChild(isDouble), s0, nodes[..NextTag(nodes, i).index + 1]) == Scan(View(), thrown)
    {
      FoldAtElement(RouteChild(isDouble), s0, nodes, i);
      thrown := ParseRouteChild(nodes[NextTag(nodes, i).index].element, isDouble);
    }

    /** One child of <route>, dispatched on its name. */
    method ParseRouteChild(e: Element, isDouble: string -> bool) returns (thrown: Option<Exception>)
      requires Valid()
      modifies this`stops, this`directions
      ensures Valid()
      ensures Scan(View(), thrown) == RouteChildStep(isDouble, old(View()), e)
    {
      if e.name == "stop" {
        thrown := ParseStop(e, isDouble);
      } else if e.name == "direction" {
        thrown := ParseDirection(e);
      } else {
        var skipped := SkipElement(e);
        thrown := if skipped.Some? then Some(Checked(skipped.value)) else None;
      }
    }

    method ParseStop(e: Element, isDouble: string -> bool) returns (thrown: Option<Exception>)
      requires Valid() && e.name == "stop"
      modifies this`stops, this`directions
      ensures Valid()
      ensures Scan(View(), thrown) == StopStep(isDouble, old(View()), e)
    {
      var stopTag := ParseInt(GetAttr(e, "tag"));
      if stopTag.None? {
        return Some(NumberFormatException);
      }
      var id := ParseInt(GetAttr(e, "stopId"));
      if id.None? {
        return Some(NumberFormatException);
      }
      var stopTitle := AttrOrEmpty(e, "title");
      var lat := GetAttr(e, "lat");
      if lat.None? {
        return Some(NullPointerException);
      }
      if !isDouble(lat.value) {
        return Some(NumberFormatException);
      }
      var lon := GetAttr(e, "lon");
      if lon.None? {
        return Some(NullPointerException);
      }
      if !isDouble(lon.value) {
        return Some(NumberFormatException);
      }
      var stop := new Db.Stop(id.value, stopTag.value, stopTitle, lat.value, lon.value);
      assert ParseStopRow(e, isDouble) == Ok(RowOf(stop));
      FileStop(stop);
      var skipped := SkipElement(e);
      thrown := if skipped.Some? then Some(Checked(skipped.value)) else None;
    }

    /** Files a stop under its tag, replacing any stop with that tag. */
    method FileStop(stop: Db.Stop)
      requires Valid()
      modifies this`stops
      ensures Valid() && stops == old(stops)[stop.tag := stop]
      ensures View() == old(View()).(stops := old(View()).stops[stop.tag := RowOf(stop)])
    {
      StopTableUpdate(stops, stop);
      stops := stops[stop.tag := stop];
    }

    /** Files a direction under its tag, replacing any direction with that
        tag. */
    method FileDirection(d: Db.Direction)
      requires Valid()
      modifies this`directions
      ensures Valid() && directions == old(directions)[d.tag := d]
      ensures View() == old(View()).(directions := old(View()).directions[d.tag := DirectionRowOf(d)])
    {
      DirectionTableUpdate(directions, d);
      directions := directions[d.tag := d];
    }

    method ParseDirection(e: Element) returns (thrown: Option<Exception>)
      requires Valid() && e.name == "direction"
      modifies this`stops, this`directions
      ensures Valid()
      ensures Scan(View(), thrown) == DirectionStep(old(View()), e)
    {
      var directionTag := AttrOrEmpty(e, "tag");
      var directionTitle := AttrOrEmpty(e, "title");
      var name := AttrOrEmpty(e, "name");
      var useForUI := ParseBoolean(GetAttr(e, "useForUI"));
      var found, fault := CollectStops(e.children);
      if fault.Some? {
        return Some(Checked(fault.value));
      }
      var d := Db.Direction(|directions|, directionTag, directionTitle, name, useForUI, found);
      DirectionTableSize(directions);
      FileDirection(d);
      thrown := None;
    }

    /** The loop of parseDirection over the direction's content. The stack
        holds, per open element, the siblings still to be read; reaching
        the end of the innermost one is its end tag, and reaching the end of
        the bottom one is the direction's own end tag. */
    method CollectStops(nodes: seq<Node>) returns (found: seq<Db.Stop>, fault: Option<Fault>)
      ensures var walk := WalkStops(nodes, StopTable(stops));
        && (walk.Ok? ==> fault.None? && RowsOf(found) == walk.value)
        && (walk.Err? ==> fault == Some(walk.error))
      ensures forall s :: s in found ==> s in stops.Values
    {
      ghost var table := StopTable(stops);
      var stack := [nodes];
      found := [];
      ThenUnit(WalkStops(nodes, table));
      while stack != []
        invariant WalkStops(nodes, table) == Then(Ok(RowsOf(found)), WalkStack(stack, table))
        invariant forall s :: s in found ==> s in stops.Values
        decreases StackSize(stack), |stack|
      {
        var top := stack[|stack| - 1];
        var below := stack[..|stack| - 1];
        if top == [] {
          ThenUnit(WalkStack(below, table));
          stack := below;
          continue;
        }
        var n := top[0];
        assert stack == below + [top];
        TakeFirst(below, top, table);
        stack := below + [top[1..]];
        ghost var rest := WalkStack(stack, table);
        if n.Broken? && n.fault == Unreadable {
          return found, Some(Unreadable);
        }
        if n.Elem? && n.element.name != "stop" {
          Enter(below, top[1..], n.element, table);
          ThenAssociative(Ok(RowsOf(found)), WalkStops(n.element.children, table), rest);
          stack := stack + [n.element.children];
        } else {
          var more: seq<Db.Stop> := [];
          if n.Elem? {
            var e := n.element;
            var stopTag := ParseInt(GetAttr(e, "tag"));
            if stopTag.Some? && stopTag.value in stops {
              more := [stops[stopTag.value]];
              assert RowsOf(more) == [table[stopTag.value]];
            }
            assert RowsOf(more) == StopFor(e, table);
            var skipped := SkipElement(e);
            if skipped.Some? {
              return found, skipped;
            }
          }
          assert WalkStopsNode(n, table) == Ok(RowsOf(more));
          Advance(RowsOf(found), RowsOf(more), rest);
          RowsOfAppend(found, more);
          found := found + more;
        }
      }
      fault := None;
    }
  }

  // -----------------------------------------------------------------------
  // The walk as a stack of pending siblings

  /** The walk over the stack, innermost level first. */
  function WalkStack(stack: seq<seq<Node>>, stops: map<int, StopRow>): Result<seq<StopRow>, Fault>
  {
    if stack == [] then Ok([])
    else Then(WalkStops(stack[|stack| - 1], stops), WalkStack(stack[..|stack| - 1], stops))
  }

  function Size(n: Node): nat
    decreases n
  {
    match n
    case Elem(e) => 1 + SizeAll(e.children)
    case _ => 1
  }

  function SizeAll(nodes: seq<Node>): nat
    decreases nodes
  {
    if nodes == [] then 0
    else
      var n := nodes[0];
      assert n in nodes;
      Size(n) + SizeAll(nodes[1..])
  }

  function StackSize(stack: seq<seq<Node>>): nat
  {
    if stack == [] then 0 else StackSize(stack[..|stack| - 1]) + SizeAll(stack[|stack| - 1])
  }

  /** Stops found by one more node are appended. */
  lemma Advance(found: seq<StopRow>, more: seq<StopRow>, rest: Result<seq<StopRow>, Fault>)
    ensures Then(Ok(found), Then(Ok(more), rest)) == Then(Ok(found + more), rest)
  {
    ThenAssociative(Ok(found), Ok(more), rest);
  }

  lemma RowsOfAppend(a: seq<Db.Stop>, b: seq<Db.Stop>)
    ensures RowsOf(a + b) == RowsOf(a) + RowsOf(b)
  {
  }

  /** An empty stretch of the walk changes nothing. */
  lemma ThenUnit(r: Result<seq<StopRow>, Fault>)
    ensures Then(Ok([]), r) == r && Then(r, Ok([])) == r
  {
    if r.Ok? {
      assert [] + r.value == r.value && r.value + [] == r.value;
    }
  }

  /** Taking the first pending sibling off the innermost level. */
  lemma TakeFirst(below: seq<seq<Node>>, top: seq<Node>, stops: map<int, StopRow>)
    requires top != []
    ensures WalkStack(below + [top], stops)
      == Then(WalkStopsNode(top[0], stops), WalkStack(below + [top[1..]], stops))
    ensures StackSize(below + [top[1..]]) + Size(top[0]) == StackSize(below + [top])
  {
    assert (below + [top])[..|below|] == below;
    assert (below + [top[1..]])[..|below|] == below;
    ThenAssociative(WalkStopsNode(top[0], stops), WalkStops(top[1..], stops), WalkStack(below, stops));
  }

  /** Entering an element pushes its children as the new innermost level. */
  lemma Enter(below: seq<seq<Node>>, rest: seq<Node>, e: Element, stops: map<int, StopRow>)
    ensures WalkStack(below + [rest] + [e.children], stops)
      == Then(WalkStops(e.children, stops), WalkStack(below + [rest], stops))
    ensures StackSize(below + [rest] + [e.children]) + 1 == StackSize(below + [rest]) + Size(Elem(e))
  {
    assert (below + [rest] + [e.children])[..|below| + 1] == below + [rest];
  }
}
