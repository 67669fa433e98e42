/** The parser for the routeList feed (RouteListParser.java): every child
    of <body> advances the upstream index, and each <route> child files a
    route under its tag. */
module RouteListParser {
  import opened JavaLang
  import opened XmlPull
  import opened ChildScan
  import opened Parser
  import Db

  /** The routes so far and the loop's upstream_index counter. */
  datatype Routes = Routes(rows: map<string, Db.RouteEntry>, upstreamIndex: int)

  /** One child of <body>: a <route> is filed under its tag (replacing any
      route with that tag) with the current index and its title; any child
      is then skipped to its end tag, and the index moves on. */
  function RouteStep(s: Routes, e: Element): Scan<Routes>
  {
    var rows :=
      if e.name == "route" then s.rows[AttrOrEmpty(e, "tag") := Db.RouteEntry(s.upstreamIndex, AttrOrEmpty(e, "title"))]
      else s.rows;
    var skipped := SkipElement(e);
    if skipped.Some? then Scan(Routes(rows, s.upstreamIndex), Some(Checked(skipped.value)))
    else Scan(Routes(rows, s.upstreamIndex + 1), None)
  }

  /** Replacing one route replaces its row. */
  lemma RowsOfUpdate(routes: map<string, Db.Route>, route: Db.Route)
    ensures Db.RouteEntries(routes[route.tag := route])
      == Db.RouteEntries(routes)[route.tag := Db.RouteEntry(route.upstreamIndex, route.description)]
  {
  }

  /** The number of element children, which is what the index counts. */
  function ElementCount(nodes: seq<Node>): nat
  {
    if nodes == [] then 0
    else ElementCount(nodes[..|nodes| - 1]) + (if nodes[|nodes| - 1].Elem? then 1 else 0)
  }

  predicate IsRouteTagged(n: Node, tag: string)
  {
    n.Elem? && n.element.name == "route" && AttrOrEmpty(n.element, "tag") == tag
  }

  /** A body read to its end tag leaves the index at the number of child
      elements, routes or not. */
  lemma {:induction false} RouteIndexCountsElements(m0: map<string, Db.RouteEntry>, nodes: seq<Node>)
    requires FoldChildren(RouteStep, Routes(m0, 0), nodes).thrown.None?
    ensures FoldChildren(RouteStep, Routes(m0, 0), nodes).state.upstreamIndex == ElementCount(nodes)
    decreases |nodes|
  {
    if nodes != [] {
      RouteIndexCountsElements(m0, nodes[..|nodes| - 1]);
    }
  }

  /** A body read to its end tag files a route under a tag exactly when the
      tag was filed before or some <route> child carries it. */
  lemma {:induction false} RouteTagsFiled(m0: map<string, Db.RouteEntry>, nodes: seq<Node>, t: string)
    requires FoldChildren(RouteStep, Routes(m0, 0), nodes).thrown.None?
    ensures t in FoldChildren(RouteStep, Routes(m0, 0), nodes).state.rows <==>
      (t in m0 || exists j :: 0 <= j < |nodes| && IsRouteTagged(nodes[j], t))
    decreases |nodes|
  {
    if nodes != [] {
      var p := nodes[..|nodes| - 1];
      RouteTagsFiled(m0, p, t);
      if exists j :: 0 <= j < |p| && IsRouteTagged(p[j], t) {
        var j :| 0 <= j < |p| && IsRouteTagged(p[j], t);
        assert IsRouteTagged(nodes[j], t);
      }
      if exists j :: 0 <= j < |nodes| && IsRouteTagged(nodes[j], t) {
        var j :| 0 <= j < |nodes| && IsRouteTagged(nodes[j], t);
        if j < |p| {
          assert IsRouteTagged(p[j], t);
        }
      }
    }
  }

  /** The route filed under a tag is the last <route> with that tag, with
      its title and, as index, the number of elements before it. */
  lemma {:induction false} LastRouteWins(m0: map<string, Db.RouteEntry>, nodes: seq<Node>, j: nat)
    requires FoldChildren(RouteStep, Routes(m0, 0), nodes).thrown.None?
    requires j < |nodes| && nodes[j].Elem? && nodes[j].element.name == "route"
    requires forall k :: j < k < |nodes| ==> !IsRouteTagged(nodes[k], AttrOrEmpty(nodes[j].element, "tag"))
    ensures AttrOrEmpty(nodes[j].element, "tag") in FoldChildren(RouteStep, Routes(m0, 0), nodes).state.rows
    ensures FoldChildren(RouteStep, Routes(m0, 0), nodes).state.rows[AttrOrEmpty(nodes[j].element, "tag")]
      == Db.RouteEntry(ElementCount(nodes[..j]), AttrOrEmpty(nodes[j].element, "title"))
    decreases |nodes|
  {
    var p := nodes[..|nodes| - 1];
    if j == |nodes| - 1 {
      RouteIndexCountsElements(m0, p);
    } else {
      assert !IsRouteTagged(nodes[|nodes| - 1], AttrOrEmpty(nodes[j].element, "tag"));
      assert p[j] == nodes[j] && p[..j] == nodes[..j];
      LastRouteWins(m0, p, j);
    }
  }

  class RouteListParser {
    var state: ResultState
    var copyright: Option<string>
    var routes: map<string, Db.Route>

    /** Every route is filed under its own tag. */
    ghost predicate Valid()
      reads this
    {
      forall t :: t in routes ==> routes[t].tag == t
    }

    constructor ()
      ensures Valid() && state == NotDone && copyright == None && routes == map[]
    {
      state := NotDone;
      copyright := None;
      routes := map[];
    }

    /** parse(): once only; dispatches on the root and runs parseBody. */
    method Parse(input: Input) returns (escaped: Option<Exception>)
      requires Valid()
      modifies this
      ensures Valid()
      ensures old(state) != NotDone ==>
        state == old(state) && routes == old(routes) && copyright == old(copyright) && escaped == None
      ensures old(state) == NotDone && Begin(input).Finished? ==>
        state == Begin(input).state && routes == old(routes) && copyright == old(copyright) && escaped == None
      ensures old(state) == NotDone && Begin(input).ToBody? ==>
        var scan := FoldChildren(RouteStep, Routes(Db.RouteEntries(old(routes)), 0), input.root.children);
        && Db.RouteEntries(routes) == scan.state.rows
        && state == StateAfterBody(scan.thrown) && escaped == Escaped(scan.thrown)
        && copyright == GetAttr(input.root, "copyright")
    {
      if state != NotDone {
        return None;
      }
      var start := Begin(input);
      match start {
        case Finished(s) =>
          state := s;
          escaped := None;
        case ToBody(body) =>
          var thrown := ParseBody(body);
          if thrown.Some? && thrown.value.Checked? {
            state := CaughtState(thrown.value.fault);
          }
          escaped := Escaped(thrown);
      }
    }

    /** parseBody: walks the children of <body>, filing routes, until the
        end tag; SUCCESS is set only after the end tag is reached. */
    method ParseBody(body: Element) returns (thrown: Option<Exception>)
      requires Valid() && body.name == "body"
      modifies this
      ensures Valid()
      ensures var scan := FoldChildren(RouteStep, Routes(Db.RouteEntries(old(routes)), 0), body.children);
        Db.RouteEntries(routes) == scan.state.rows && thrown == scan.thrown
      ensures thrown.None? ==> state == Success
      ensures thrown.Some? ==> state == old(state)
      ensures copyright == GetAttr(body, "copyright")
    {
      copyright := GetAttr(body, "copyright");
      var nodes := body.children;
      ghost var s0 := Routes(Db.RouteEntries(routes), 0);
      var upstreamIndex := 0;
      var i := 0;
      while true
        invariant 0 <= i <= |nodes|
        invariant Valid() && state == old(state) && copyright == GetAttr(body, "copyright")
        invariant FoldChildren(RouteStep, s0, nodes[..i]) == Scan(Routes(Db.RouteEntries(routes), upstreamIndex), None)
        decreases |nodes| - i
      {
        var step := NextTag(nodes, i);
        if step.AtEnd? {
          FoldAtEnd(RouteStep, s0, nodes, i);
          break;
        }
        if step.Threw? {
          FoldAtThrow(RouteStep, s0, nodes, i);
          return Some(Checked(step.fault));
        }
        var j := step.index;
        FoldAtElement(RouteStep, s0, nodes, i);
        var e := nodes[j].element;
        FileRoute(e, upstreamIndex);
        var skipped := SkipElement(e);
        if skipped.Some? {
          FoldSticky(RouteStep, s0, nodes, j + 1);
          return Some(Checked(skipped.value));
        }
        i := j + 1;
        upstreamIndex := upstreamIndex + 1;
      }
      state := Success;
      thrown := None;
    }

    /** The body of the loop for a <route> child: a new Db.Route filed
        under its tag; other children file nothing. */
    method FileRoute(e: Element, upstreamIndex: int)
      requires Valid()
      modifies this
      ensures Valid() && state == old(state) && copyright == old(copyright)
      ensures Db.RouteEntries(routes) == (if e.name == "route"
        then Db.RouteEntries(old(routes))[AttrOrEmpty(e, "tag") := Db.RouteEntry(upstreamIndex, AttrOrEmpty(e, "title"))]
        else Db.RouteEntries(old(routes)))
    {
      if e.name == "route" {
        var route := new Db.Route(upstreamIndex, AttrOrEmpty(e, "tag"), AttrOrEmpty(e, "title"));
        RowsOfUpdate(routes, route);
        routes := routes[route.tag := route];
      }
    }
  }
}
