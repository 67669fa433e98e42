/** The parser for the predictionsForMultiStops feed (PredictionsParser.java):
    one <predictions> block per route at the stop, <direction> blocks inside
    it, and <prediction> elements inside those, collected in document order
    together with each direction tag's title. */
module PredictionsParser {
  import opened JavaLang
  import opened XmlPull
  import opened ChildScan
  import opened Parser
  import Db

  /** The prediction list and the direction tag -> title map. */
  datatype Collected = Collected(predictions: seq<Db.Prediction>, titles: map<string, string>)

  /** The prediction a <prediction> element stands for, once its epochTime
      has parsed. */
  function PredictionOf(routeTag: string, epochTime: int, p: Element): Db.Prediction
  {
    Db.Prediction(routeTag, epochTime, ParseBoolean(GetAttr(p, "isDeparture")),
      AttrOrEmpty(p, "dirTag"), AttrOrEmpty(p, "block"))
  }

  /** One child of <direction>: it must be a <prediction> (else a parse
      error) whose epochTime is a decimal long (else NumberFormatException);
      the prediction is appended and its dirTag mapped to the direction's
      title before nextText reads the element's text, which may throw. */
  function PredictionStep(routeTag: string, title: string, s: Collected, p: Element): Scan<Collected>
  {
    if p.name != "prediction" then Scan(s, Some(Checked(Malformed)))
    else
      var epochTime := ParseLong(GetAttr(p, "epochTime"));
      if epochTime.None? then Scan(s, Some(NumberFormatException))
      else
        var added := Collected(s.predictions + [PredictionOf(routeTag, epochTime.value, p)],
          s.titles[AttrOrEmpty(p, "dirTag") := title]);
        var text := NextText(p);
        Scan(added, if text.Err? then Some(Checked(text.error)) else None)
  }

  function Prediction(routeTag: string, title: string): (Collected, Element) -> Scan<Collected>
  {
    (s: Collected, p: Element) => PredictionStep(routeTag, title, s, p)
  }

  /** One child of <predictions>: a <direction> is read prediction by
      prediction; anything else is skipped. */
  function DirectionStep(routeTag: string, s: Collected, c: Element): Scan<Collected>
  {
    if c.name == "direction" then FoldChildren(Prediction(routeTag, AttrOrEmpty(c, "title")), s, c.children)
    else
      var skipped := SkipElement(c);
      Scan(s, if skipped.Some? then Some(Checked(skipped.value)) else None)
  }

  function Direction(routeTag: string): (Collected, Element) -> Scan<Collected>
  {
    (s: Collected, c: Element) => DirectionStep(routeTag, s, c)
  }

  /** parsePredictions: the element must be <predictions>; a block with
      dirTitleBecauseNoPredictions is skipped whole, any other is read
      direction by direction under its routeTag. */
  function PredictionsStep(s: Collected, e: Element): Scan<Collected>
  {
    if e.name != "predictions" then Scan(s, Some(Checked(Malformed)))
    else if GetAttr(e, "dirTitleBecauseNoPredictions").Some? then
      var skipped := SkipElement(e);
      Scan(s, if skipped.Some? then Some(Checked(skipped.value)) else None)
    else FoldChildren(Direction(AttrOrEmpty(e, "routeTag")), s, e.children)
  }

  /** One child of <body>: keyForNextTime has its text read and dropped;
      anything else goes to parsePredictions. */
  function BodyStep(s: Collected, e: Element): Scan<Collected>
  {
    if e.name == "keyForNextTime" then
      var text := NextText(e);
      Scan(s, if text.Err? then Some(Checked(text.error)) else None)
    else PredictionsStep(s, e)
  }

  function Body(): (Collected, Element) -> Scan<Collected>
  {
    (s: Collected, e: Element) => BodyStep(s, e)
  }

  // -----------------------------------------------------------------------
  // Properties

  /** The element children of a run of nodes, in order. */
  function ElementsOf(nodes: seq<Node>): (r: seq<Element>)
    ensures |r| <= |nodes|
  {
    if nodes == [] then []
    else
      var rest := ElementsOf(nodes[..|nodes| - 1]);
      if nodes[|nodes| - 1].Elem? then rest + [nodes[|nodes| - 1].element] else rest
  }

  /** A <direction> read to its end tag adds one prediction per
      <prediction> child, in document order, each carrying the routeTag of
      its block and its own epochTime, isDeparture, dirTag and block; and
      every child element is a <prediction>. */
  lemma {:induction false} DirectionYieldsOnePerPrediction(routeTag: string, title: string, s: Collected, nodes: seq<Node>)
    requires FoldChildren(Prediction(routeTag, title), s, nodes).thrown.None?
    ensures var r := FoldChildren(Prediction(routeTag, title), s, nodes).state;
      var ps := ElementsOf(nodes);
      && |r.predictions| == |s.predictions| + |ps|
      && r.predictions[..|s.predictions|] == s.predictions
      && (forall k :: 0 <= k < |ps| ==>
            && ps[k].name == "prediction"
            && ParseLong(GetAttr(ps[k], "epochTime")).Some?
            && r.predictions[|s.predictions| + k]
               == PredictionOf(routeTag, ParseLong(GetAttr(ps[k], "epochTime")).value, ps[k]))
    decreases |nodes|
  {
    if nodes != [] {
      var p := nodes[..|nodes| - 1];
      var before := FoldChildren(Prediction(routeTag, title), s, p);
      assert before.thrown.None?;
      DirectionYieldsOnePerPrediction(routeTag, title, s, p);
      var last := nodes[|nodes| - 1];
      if last.Elem? {
        var r := FoldChildren(Prediction(routeTag, title), s, nodes).state;
        assert ElementsOf(nodes) == ElementsOf(p) + [last.element];
        assert r.predictions == before.state.predictions + [r.predictions[|r.predictions| - 1]];
        assert r.predictions[..|s.predictions|] == before.state.predictions[..|s.predictions|];
      }
    }
  }

  /** The last child of a <direction> read without a throw: a
      <prediction> maps its dirTag to the title. */
  lemma DirectionTitleStep(routeTag: string, title: string, s: Collected, nodes: seq<Node>)
    requires nodes != [] && FoldChildren(Prediction(routeTag, title), s, nodes).thrown.None?
    ensures var p := nodes[..|nodes| - 1];
      var before := FoldChildren(Prediction(routeTag, title), s, p);
      var r := FoldChildren(Prediction(routeTag, title), s, nodes).state;
      && before.thrown.None?
      && ElementsOf(nodes) == ElementsOf(p) + (if nodes[|nodes| - 1].Elem? then [nodes[|nodes| - 1].element] else [])
      && r.titles == (if nodes[|nodes| - 1].Elem?
                      then before.state.titles[AttrOrEmpty(nodes[|nodes| - 1].element, "dirTag") := title]
                      else before.state.titles)
  {
  }

  /** After a <direction> read to its end tag, the dirTag of each of its
      predictions maps to the direction's title. */
  lemma {:induction false} DirectionTitlesRecorded(routeTag: string, title: string, s: Collected, nodes: seq<Node>)
    requires FoldChildren(Prediction(routeTag, title), s, nodes).thrown.None?
    ensures var r := FoldChildren(Prediction(routeTag, title), s, nodes).state;
      var ps := ElementsOf(nodes);
      forall k :: 0 <= k < |ps| ==> AttrOrEmpty(ps[k], "dirTag") in r.titles && r.titles[AttrOrEmpty(ps[k], "dirTag")] == title
    decreases |nodes|
  {
    if nodes != [] {
      var p := nodes[..|nodes| - 1];
      DirectionTitleStep(routeTag, title, s, nodes);
      DirectionTitlesRecorded(routeTag, title, s, p);
      var ps := ElementsOf(nodes);
      var r := FoldChildren(Prediction(routeTag, title), s, nodes).state;
      forall k | 0 <= k < |ps|
        ensures AttrOrEmpty(ps[k], "dirTag") in r.titles && r.titles[AttrOrEmpty(ps[k], "dirTag")] == title
      {
        if k < |ElementsOf(p)| {
          assert ps[k] == ElementsOf(p)[k];
        }
      }
    }
  }

  /** A <direction> read to its end tag leaves the title of every other
      dirTag as it was. */
  lemma {:induction false} DirectionKeepsOtherTitles(routeTag: string, title: string, s: Collected, nodes: seq<Node>, t: string)
    requires FoldChildren(Prediction(routeTag, title), s, nodes).thrown.None?
    requires t in s.titles
    requires forall k :: 0 <= k < |ElementsOf(nodes)| ==> AttrOrEmpty(ElementsOf(nodes)[k], "dirTag") != t
    ensures t in FoldChildren(Prediction(routeTag, title), s, nodes).state.titles
    ensures FoldChildren(Prediction(routeTag, title), s, nodes).state.titles[t] == s.titles[t]
    decreases |nodes|
  {
    if nodes != [] {
      var p := nodes[..|nodes| - 1];
      DirectionTitleStep(routeTag, title, s, nodes);
      forall k | 0 <= k < |ElementsOf(p)|
        ensures AttrOrEmpty(ElementsOf(p)[k], "dirTag") != t
      {
        assert ElementsOf(p)[k] == ElementsOf(nodes)[k];
      }
      DirectionKeepsOtherTitles(routeTag, title, s, p, t);
      if nodes[|nodes| - 1].Elem? {
        assert ElementsOf(nodes)[|ElementsOf(nodes)| - 1] == nodes[|nodes| - 1].element;
      }
    }
  }

  /** Blocks that contribute nothing: a <predictions> with
      dirTitleBecauseNoPredictions, a child of <predictions> that is not a
      <direction>, and keyForNextTime. */
  lemma SkippedBlocksContributeNothing(s: Collected, e: Element, routeTag: string)
    ensures e.name == "predictions" && GetAttr(e, "dirTitleBecauseNoPredictions").Some? ==>
      PredictionsStep(s, e).state == s
    ensures e.name != "direction" ==> DirectionStep(routeTag, s, e).state == s
    ensures e.name == "keyForNextTime" ==> BodyStep(s, e).state == s
    ensures e.name != "predictions" && e.name != "keyForNextTime" ==> BodyStep(s, e) == Scan(s, Some(Checked(Malformed)))
  {
  }

  /** What parse() leaves in a new parser: its state, what it collected
      and the runtime exception that escapes, if any. */
  datatype Parsed = Parsed(state: ResultState, collected: Collected, escaped: Option<Exception>)

  function FreshParse(input: Input): Parsed
  {
    match Begin(input)
    case Finished(s) => Parsed(s, Collected([], map[]), None)
    case ToBody(body) =>
      var scan := FoldChildren(Body(), Collected([], map[]), body.children);
      Parsed(StateAfterBody(scan.thrown), scan.state, Escaped(scan.thrown))
  }

  class PredictionsParser {
    var state: ResultState
    var copyright: Option<string>
    var predictions: seq<Db.Prediction>
    var directionTag2Title: map<string, string>

    function View(): Collected
      reads this
    {
      Collected(predictions, directionTag2Title)
    }

    constructor ()
      ensures state == NotDone && copyright == None && predictions == [] && directionTag2Title == map[]
    {
      state := NotDone;
      copyright := None;
      predictions := [];
      directionTag2Title := map[];
    }

    /** parse(): once only; dispatches on the root and runs parseBody. */
    method Parse(input: Input) returns (escaped: Option<Exception>)
      modifies this
      ensures old(state) != NotDone ==>
        state == old(state) && View() == old(View()) && copyright == old(copyright) && escaped == None
      ensures old(state) == NotDone && Begin(input).Finished? ==>
        state == Begin(input).state && View() == old(View()) && copyright == old(copyright) && escaped == None
      ensures old(state) == NotDone && Begin(input).ToBody? ==>
        var scan := FoldChildren(Body(), old(View()), input.root.children);
        && View() == scan.state
        && state == StateAfterBody(scan.thrown) && escaped == Escaped(scan.thrown)
        && copyright == GetAttr(input.root, "copyright")
    {
      if state != NotDone {
        return None;
      }
      var start := Begin(input);
      match start {
        case Finished(s) =>
          state := s;
          escaped := None;
        case ToBody(body) =>
          var thrown := ParseBody(body);
          if thrown.Some? && thrown.value.Checked? {
            state := CaughtState(thrown.value.fault);
          }
          escaped := Escaped(thrown);
      }
    }

    /** parseBody: the children of <body> until its end tag; SUCCESS only
        when that end tag is reached. */
    method ParseBody(body: Element) returns (thrown: Option<Exception>)
      requires body.name == "body"
      modifies this
      ensures Scan(View(), thrown) == FoldChildren(Body(), old(View()), body.children)
      ensures thrown.None? ==> state == Success
      ensures thrown.Some? ==> state == old(state)
      ensures copyright == GetAttr(body, "copyright")
    {
      copyright := GetAttr(body, "copyright");
      var nodes := body.children;
      ghost var s0 := View();
      var i := 0;
      while true
        invariant 0 <= i <= |nodes|
        invariant state == old(state) && copyright == GetAttr(body, "copyright")
        invariant FoldChildren(Body(), s0, nodes[..i]) == Scan(View(), None)
        decreases |nodes| - i
      {
        var next := NextTag(nodes, i);
        if next.AtEnd? {
          FoldAtEnd(Body(), s0, nodes, i);
          break;
        }
        if next.Threw? {
          FoldAtThrow(Body(), s0, nodes, i);
          return Some(Checked(next.fault));
        }
        var j := next.index;
        FoldAtElement(Body(), s0, nodes, i);
        thrown := ParseBodyChild(nodes[j].element);
        if thrown.Some? {
          FoldSticky(Body(), s0, nodes, j + 1);
          return;
        }
        i := j + 1;
      }
      state := Success;
      thrown := None;
    }

    /** The body of parseBody's loop: keyForNextTime has its text read,
        anything else goes to parsePredictions. */
    method ParseBodyChild(e: Element) returns (thrown: Option<Exception>)
      modifies this
      ensures Scan(View(), thrown) == BodyStep(old(View()), e)
      ensures state == old(state) && copyright == old(copyright)
    {
      if e.name == "keyForNextTime" {
        var text := NextText(e);
        thrown := if text.Err? then Some(Checked(text.error)) else None;
      } else {
        thrown := ParsePredictions(e);
      }
    }

    /** parsePredictions. */
    method ParsePredictions(e: Element) returns (thrown: Option<Exception>)
      modifies this
      ensures Scan(View(), thrown) == PredictionsStep(old(View()), e)
      ensures state == old(state) && copyright == old(copyright)
    {
      if e.name != "predictions" {
        return Some(Checked(Malformed));
      }
      var noPredictionsTitle := GetAttr(e, "dirTitleBecauseNoPredictions");
      if noPredictionsTitle.Some? {
        var skipped := SkipElement(e);
        return if skipped.Some? then Some(Checked(skipped.value)) else None;
      }
      thrown := ParseDirectionList(e.children, AttrOrEmpty(e, "routeTag"));
    }

    /** parsePredictions' loop over the children of <predictions>. */
    method ParseDirectionList(nodes: seq<Node>, routeTag: string) returns (thrown: Option<Exception>)
      modifies this
      ensures Scan(View(), thrown) == FoldChildren(Direction(routeTag), old(View()), nodes)
      ensures state == old(state) && copyright == old(copyright)
    {
      ghost var s0 := View();
      var i := 0;
      while true
        invariant 0 <= i <= |nodes|
        invariant state == old(state) && copyright == old(copyright)
        invariant FoldChildren(Direction(routeTag), s0, nodes[..i]) == Scan(View(), None)
        decreases |nodes| - i
      {
        var next := NextTag(nodes, i);
        if next.AtEnd? {
          FoldAtEnd(Direction(routeTag), s0, nodes, i);
          return None;
        }
        if next.Threw? {
          FoldAtThrow(Direction(routeTag), s0, nodes, i);
          return Some(Checked(next.fault));
        }
        var j := next.index;
        FoldAtElement(Direction(routeTag), s0, nodes, i);
        thrown := ParsePredictionsChild(nodes[j].element, routeTag);
        if thrown.Some? {
          FoldSticky(Direction(routeTag), s0, nodes, j + 1);
          return;
        }
        i := j + 1;
      }
    }

    /** The body of parsePredictions' loop: a <direction> is parsed, any
        other child skipped. */
    method ParsePredictionsChild(c: Element, routeTag: string) returns (thrown: Option<Exception>)
      modifies this
      ensures Scan(View(), thrown) == DirectionStep(routeTag, old(View()), c)
      ensures state == old(state) && copyright == old(copyright)
    {
      var parsed;
      parsed, thrown := ParseDirection(c, routeTag);
      if !parsed {
        var skipped := SkipElement(c);
        thrown := if skipped.Some? then Some(Checked(skipped.value)) else None;
      }
    }

    /** parseDirection: false, with nothing read, unless the element is a
        <direction>; otherwise its <prediction> children one by one. */
    method ParseDirection(c: Element, routeTag: string) returns (parsed: bool, thrown: Option<Exception>)
      modifies this
      ensures parsed <==> c.name == "direction"
      ensures parsed ==> Scan(View(), thrown) == DirectionStep(routeTag, old(View()), c)
      ensures !parsed ==> View() == old(View()) && thrown.None?
      ensures state == old(state) && copyright == old(copyright)
    {
      if c.name != "direction" {
        return false, None;
      }
      parsed := true;
      thrown := ParsePredictionList(c.children, routeTag, AttrOrEmpty(c, "title"));
    }

    /** parseDirection's loop over the children of <direction>. */
    method ParsePredictionList(nodes: seq<Node>, routeTag: string, title: string) returns (thrown: Option<Exception>)
      modifies this
      ensures Scan(View(), thrown) == FoldChildren(Prediction(routeTag, title), old(View()), nodes)
      ensures state == old(state) && copyright == old(copyright)
    {
      ghost var s0 := View();
      var i := 0;
      while true
        invariant 0 <= i <= |nodes|
        invariant state == old(state) && copyright == old(copyright)
        invariant FoldChildren(Prediction(routeTag, title), s0, nodes[..i]) == Scan(View(), None)
        decreases |nodes| - i
      {
        var next := NextTag(nodes, i);
        if next.AtEnd? {
          FoldAtEnd(Prediction(routeTag, title), s0, nodes, i);
          return None;
        }
        if next.Threw? {
          FoldAtThrow(Prediction(routeTag, title), s0, nodes, i);
          return Some(Checked(next.fault));
        }
        var j := next.index;
        FoldAtElement(Prediction(routeTag, title), s0, nodes, i);
        thrown := ParsePrediction(nodes[j].element, routeTag, title);
        if thrown.Some? {
          FoldSticky(Prediction(routeTag, title), s0, nodes, j + 1);
          return;
        }
        i := j + 1;
      }
    }

    /** The body of parseDirection's loop for one <prediction>. */
    method ParsePrediction(p: Element, routeTag: string, title: string) returns (thrown: Option<Exception>)
      modifies this
      ensures Scan(View(), thrown) == PredictionStep(routeTag, title, old(View()), p)
      ensures state == old(state) && copyright == old(copyright)
    {
      if p.name != "prediction" {
        return Some(Checked(Malformed));
      }
      var epochTime := ParseLong(GetAttr(p, "epochTime"));
      if epochTime.None? {
        return Some(NumberFormatException);
      }
      var isDeparture := ParseBoolean(GetAttr(p, "isDeparture"));
      var dirTag := AttrOrEmpty(p, "dirTag");
      var block := AttrOrEmpty(p, "block");
      predictions := predictions + [Db.Prediction(routeTag, epochTime.value, isDeparture, dirTag, block)];
      directionTag2Title := directionTag2Title[dirTag := title];
      var text := NextText(p);
      thrown := if text.Err? then Some(Checked(text.error)) else None;
    }
  }
}
