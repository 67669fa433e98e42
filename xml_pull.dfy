/** What the feed parsers see of the XML pull parser: a document as an
    element tree in which the tokenizer or the stream may break down at any
    point, the parser's nextTag / nextText / getAttributeValue over that
    tree, and the flat event stream the tree stands for. */
module XmlPull {
  import opened JavaLang

  /** A checked exception the pull parser raises: malformed input
      (XmlPullParserException) or a failing stream (IOException). */
  datatype Fault = Malformed | Unreadable

  /** Everything that can leave a parser method: the two checked
      exceptions, and the runtime exceptions the number parsers throw. */
  datatype Exception = Checked(fault: Fault) | NumberFormatException | NullPointerException

  datatype Attribute = Attribute(name: string, value: string)

  datatype Element = Element(name: string, attributes: seq<Attribute>, children: seq<Node>)

  /** A child of an element. Broken marks the point in document order at
      which reading the input fails. */
  datatype Node = Elem(element: Element) | Text(text: string) | Broken(fault: Fault)

  /** A document as setInput presents it: a root element, or an input that
      fails before its first element is read. */
  datatype Input = Document(root: Element) | UnreadableInput(fault: Fault)

  // -----------------------------------------------------------------------
  // Attributes

  /** getAttributeValue(null, name): the value of the first attribute with
      that name, or null. */
  function GetAttr(e: Element, name: string): (r: Option<string>)
  {
    AttrIn(e.attributes, name)
  }

  function AttrIn(attributes: seq<Attribute>, name: string): (r: Option<string>)
    ensures r.None? <==> forall i :: 0 <= i < |attributes| ==> attributes[i].name != name
    ensures r.Some? ==> exists i :: (0 <= i < |attributes| && attributes[i] == Attribute(name, r.value)
      && forall k :: 0 <= k < i ==> attributes[k].name != name)
  {
    if attributes == [] then None
    else if attributes[0].name == name then Some(attributes[0].value)
    else
      var r := AttrIn(attributes[1..], name);
      if r.Some? then
        var i :| 0 <= i < |attributes[1..]| && attributes[1..][i] == Attribute(name, r.value)
          && forall k :: 0 <= k < i ==> attributes[1..][k].name != name;
        assert attributes[i + 1] == Attribute(name, r.value);
        r
      else r
  }

  /** A String field filled from an attribute. A missing attribute is kept
      as the empty string. */
  function AttrOrEmpty(e: Element, name: string): string
  {
    var v := GetAttr(e, name);
    if v.Some? then v.value else ""
  }

  // -----------------------------------------------------------------------
  // nextTag

  /** The XML white-space characters. */
  predicate IsWhitespace(s: string)
  {
    forall i :: 0 <= i < |s| ==> s[i] in {' ', '\t', '\n', '\r'}
  }

  /** Content that nextTag passes over: white-space-only text. */
  predicate IsBlank(n: Node)
  {
    n.Text? && IsWhitespace(n.text)
  }

  predicate AllBlank(nodes: seq<Node>, from: nat, to: nat)
    requires from <= to <= |nodes|
  {
    forall k :: from <= k < to ==> IsBlank(nodes[k])
  }

  /** Where nextTag stops among an element's children: at a child element,
      at the element's own end tag, or with an exception. */
  datatype Step = AtStart(index: nat) | AtEnd | Threw(index: nat, fault: Fault)

  /** The exception nextTag raises at a node that is neither an element nor
      blank text. */
  function FaultAt(n: Node): Fault
  {
    if n.Broken? then n.fault else Malformed
  }

  /** nextTag over the children from position from on. */
  function NextTag(nodes: seq<Node>, from: nat): (r: Step)
    requires from <= |nodes|
    decreases |nodes| - from
    ensures r.AtStart? ==> from <= r.index < |nodes| && nodes[r.index].Elem? && AllBlank(nodes, from, r.index)
    ensures r.AtEnd? ==> AllBlank(nodes, from, |nodes|)
    ensures r.Threw? ==>
      && from <= r.index < |nodes| && AllBlank(nodes, from, r.index)
      && !nodes[r.index].Elem? && !IsBlank(nodes[r.index]) && r.fault == FaultAt(nodes[r.index])
  {
    if from == |nodes| then AtEnd
    else if nodes[from].Elem? then AtStart(from)
    else if IsBlank(nodes[from]) then NextTag(nodes, from + 1)
    else Threw(from, FaultAt(nodes[from]))
  }

  // -----------------------------------------------------------------------
  // nextText and skipping

  /** nextText on an element: its text if all its content is text, else
      the exception the parser raises on the first other node. */
  function TextContent(nodes: seq<Node>): (r: Result<string, Fault>)
    ensures r.Ok? ==> forall k :: 0 <= k < |nodes| ==> nodes[k].Text?
    ensures (forall k :: 0 <= k < |nodes| ==> nodes[k].Text?) ==> r.Ok?
  {
    if nodes == [] then Ok("")
    else match nodes[0]
      case Text(t) =>
        var rest := TextContent(nodes[1..]);
        if rest.Ok? then Ok(t + rest.value) else rest
      case Elem(_) => Err(Malformed)
      case Broken(f) => Err(f)
  }

  function NextText(e: Element): Result<string, Fault>
  {
    TextContent(e.children)
  }

  /** The first break in document order among the nodes and their
      descendants. */
  function FaultIn(nodes: seq<Node>): Option<Fault>
    decreases nodes
  {
    if nodes == [] then None
    else
      var n := nodes[0];
      assert n in nodes;
      var first := FaultInNode(n);
      if first.Some? then first else FaultIn(nodes[1..])
  }

  function FaultInNode(n: Node): Option<Fault>
    decreases n
  {
    match n
    case Broken(f) => Some(f)
    case Text(_) => None
    case Elem(e) => FaultIn(e.children)
  }

  /** skipToEndOfTag from an element's start tag, as the tree sees it: it
      succeeds unless reading the element's content breaks down. The event
      model below shows that it stops at the element's own end tag. */
  function SkipElement(e: Element): Option<Fault>
  {
    FaultIn(e.children)
  }

  // -----------------------------------------------------------------------
  // The event stream

  datatype Event = StartTag(name: string, attributes: seq<Attribute>) | EndTag(name: string) | TextEvent(text: string) | FaultEvent(fault: Fault)

  /** The events next() reports for an element, start tag to end tag. */
  function Flatten(e: Element): seq<Event>
  {
    FlattenNode(Elem(e))
  }

  function FlattenNode(n: Node): seq<Event>
    decreases n
  {
    match n
    case Elem(e) => [StartTag(e.name, e.attributes)] + FlattenAll(e.children) + [EndTag(e.name)]
    case Text(t) => [TextEvent(t)]
    case Broken(f) => [FaultEvent(f)]
  }

  function FlattenAll(nodes: seq<Node>): seq<Event>
    decreases nodes
  {
    if nodes == [] then []
    else
      var n := nodes[0];
      assert n in nodes;
      FlattenNode(n) + FlattenAll(nodes[1..])
  }

  /** The change an event makes to the number of open elements. */
  function Delta(ev: Event): int
  {
    match ev
    case StartTag(_, _) => 1
    case EndTag(_) => -1
    case _ => 0
  }

  /** Elements opened minus elements closed over a run of events. */
  function Balance(events: seq<Event>): int
  {
    if events == [] then 0 else Balance(events[..|events| - 1]) + Delta(events[|events| - 1])
  }

  lemma {:induction false} BalanceAppend(a: seq<Event>, b: seq<Event>)
    ensures Balance(a + b) == Balance(a) + Balance(b)
    decreases |b|
  {
    if b == [] {
      assert a + b == a;
    } else {
      var b' := b[..|b| - 1];
      assert (a + b)[..|a + b| - 1] == a + b';
      BalanceAppend(a, b');
    }
  }

  /** The end of the element whose start tag is at position start: an end
      tag with that name, at the start tag's depth. */
  predicate IsEndOfTag(events: seq<Event>, start: nat, k: nat)
    requires start < k < |events| && events[start].StartTag?
  {
    events[k] == EndTag(events[start].name) && Balance(events[start + 1..k]) == 0
  }

  /** skipToEndOfTag: reads events after the start tag at position start
      until the end tag of the same name at the same depth, and returns
      that end tag's position; it fails on a break in the input, and on
      running out of input, where the tokenizer reports the unclosed
      element. */
  method SkipToEndOfTag(events: seq<Event>, start: nat) returns (r: Result<nat, Fault>)
    requires start < |events| && events[start].StartTag?
    ensures r.Ok? ==>
      && start < r.value < |events| && IsEndOfTag(events, start, r.value)
      && (forall k :: start < k < r.value ==> !IsEndOfTag(events, start, k) && !events[k].FaultEvent?)
    ensures r.Err? ==>
      (forall k :: start < k < |events| ==> !IsEndOfTag(events, start, k) && !events[k].FaultEvent?) ||
      (exists k :: start < k < |events| && events[k] == FaultEvent(r.error)
         && forall m :: start < m < k ==> !IsEndOfTag(events, start, m) && !events[m].FaultEvent?)
  {
    var tagName := events[start].name;
    var i := start + 1;
    var open := 0;
    while i < |events|
      invariant start < i <= |events|
      invariant open == Balance(events[start + 1..i])
      invariant forall k :: start < k < i ==> !IsEndOfTag(events, start, k) && !events[k].FaultEvent?
      decreases |events| - i
    {
      var ev := events[i];
      if ev.FaultEvent? {
        return Err(ev.fault);
      }
      if ev.EndTag? && open == 0 && ev.name == tagName {
        return Ok(i);
      }
      assert events[start + 1..i + 1][..i - start - 1] == events[start + 1..i];
      open := open + Delta(ev);
      i := i + 1;
    }
    return Err(Malformed);
  }

  /** The properties of a run of events that make skipToEndOfTag stop only
      at the end of the run: balanced, no prefix closes more than it opened,
      and every end tag closes something opened inside the run. */
  ghost predicate Nested(events: seq<Event>)
  {
    && Balance(events) == 0
    && (forall k :: 0 <= k <= |events| ==> Balance(events[..k]) >= 0)
    && (forall k :: 0 <= k < |events| && events[k].EndTag? ==> Balance(events[..k]) >= 1)
  }

  lemma NestedAppend(a: seq<Event>, b: seq<Event>)
    requires Nested(a) && Nested(b)
    ensures Nested(a + b)
  {
    var ab := a + b;
    BalanceAppend(a, b);
    forall k | 0 <= k <= |ab|
      ensures Balance(ab[..k]) >= 0
      ensures k < |ab| && ab[k].EndTag? ==> Balance(ab[..k]) >= 1
    {
      if k <= |a| {
        assert ab[..k] == a[..k];
        if k < |a| {
          assert ab[k] == a[k];
        }
      } else {
        assert ab[..k] == a + b[..k - |a|];
        BalanceAppend(a, b[..k - |a|]);
        assert a[..|a|] == a;
        if k < |ab| {
          assert ab[k] == b[k - |a|];
        }
      }
    }
  }

  lemma SingleNested(ev: Event)
    requires !ev.StartTag? && !ev.EndTag?
    ensures Nested([ev])
  {
    assert [ev][..0] == [];
    assert [ev][..1] == [ev];
  }

  /** Wrapping a nested run in a start tag and its end tag keeps it nested;
      and every end tag strictly inside the wrapper closes an element other
      than the wrapper. */
  lemma WrapNested(s: Event, inner: seq<Event>, e: Event)
    requires s.StartTag? && e.EndTag? && Nested(inner)
    ensures Nested([s] + inner + [e])
    ensures forall k :: 1 <= k < |inner| + 1 && ([s] + inner + [e])[k].EndTag? ==>
      Balance(([s] + inner + [e])[..k]) >= 2
  {
    var all := [s] + inner + [e];
    assert all[..|all|] == all;
    assert all[..|all| - 1] == [s] + inner;
    WrapPrefix(s, inner, e, |inner| + 1);
    assert inner[..|inner|] == inner;
    assert Balance(all) == Balance(all[..|all| - 1]) + Delta(e);
    forall k | 0 <= k < |all|
      ensures Balance(all[..k]) >= 0
      ensures all[k].EndTag? ==> Balance(all[..k]) >= 1
      ensures 1 <= k < |all| - 1 && all[k].EndTag? ==> Balance(all[..k]) >= 2
    {
      if k == 0 {
        assert all[..k] == [];
      } else {
        WrapPrefix(s, inner, e, k);
        if k < |all| - 1 {
          assert all[k] == inner[k - 1];
        }
      }
    }
  }

  /** A prefix of the wrapped run that has passed the start tag: one more
      element open than the same prefix of the inner run. */
  lemma WrapPrefix(s: Event, inner: seq<Event>, e: Event, k: nat)
    requires s.StartTag? && 1 <= k <= |inner| + 1
    ensures Balance(([s] + inner + [e])[..k]) == 1 + Balance(inner[..k - 1])
  {
    assert ([s] + inner + [e])[..k] == [s] + inner[..k - 1];
    BalanceAppend([s], inner[..k - 1]);
    assert Balance([s]) == 1 by {
      assert [s][..0] == [];
    }
  }

  lemma {:induction false} FlattenAllNested(nodes: seq<Node>)
    ensures Nested(FlattenAll(nodes))
    decreases nodes
  {
    if nodes == [] {
      assert FlattenAll(nodes) == [];
      assert FlattenAll(nodes)[..0] == [];
    } else {
      var n := nodes[0];
      assert n in nodes;
      FlattenNodeNested(n);
      FlattenAllNested(nodes[1..]);
      NestedAppend(FlattenNode(n), FlattenAll(nodes[1..]));
    }
  }

  lemma {:induction false} FlattenNodeNested(n: Node)
    ensures Nested(FlattenNode(n))
    ensures n.Elem? ==> forall k :: 1 <= k < |FlattenNode(n)| - 1 && FlattenNode(n)[k].EndTag? ==>
      Balance(FlattenNode(n)[..k]) >= 2
    decreases n
  {
    match n
    case Elem(e) =>
      FlattenAllNested(e.children);
      WrapNested(StartTag(e.name, e.attributes), FlattenAll(e.children), EndTag(e.name));
    case Text(t) =>
      SingleNested(TextEvent(t));
    case Broken(f) =>
      SingleNested(FaultEvent(f));
  }

  /** Without breaks in the content, the events hold no fault. */
  lemma {:induction false} NoFaultEvents(nodes: seq<Node>)
    requires FaultIn(nodes).None?
    ensures forall k :: 0 <= k < |FlattenAll(nodes)| ==> !FlattenAll(nodes)[k].FaultEvent?
    decreases nodes
  {
    if nodes != [] {
      var n := nodes[0];
      assert n in nodes;
      NoFaultEventsNode(n);
      NoFaultEvents(nodes[1..]);
    }
  }

  lemma {:induction false} NoFaultEventsNode(n: Node)
    requires FaultInNode(n).None?
    ensures forall k :: 0 <= k < |FlattenNode(n)| ==> !FlattenNode(n)[k].FaultEvent?
    decreases n
  {
    if n.Elem? {
      NoFaultEvents(n.element.children);
    }
  }

  /** On the events of an element without breaks, skipToEndOfTag from the
      element's start tag meets no fault and no end of this tag before the
      element's own end tag, which is one: so it stops exactly there,
      whatever precedes or follows the element. */
  lemma SkipStopsAtOwnEnd(before: seq<Event>, e: Element, after: seq<Event>)
    requires FaultIn(e.children).None?
    ensures |before| < |before| + |Flatten(e)| - 1 < |before + Flatten(e) + after|
    ensures IsEndOfTag(before + Flatten(e) + after, |before|, |before| + |Flatten(e)| - 1)
    ensures forall k :: |before| < k < |before| + |Flatten(e)| - 1 ==>
      !IsEndOfTag(before + Flatten(e) + after, |before|, k) && !(before + Flatten(e) + after)[k].FaultEvent?
  {
    var events := before + Flatten(e) + after;
    var f := Flatten(e);
    var start := |before|;
    var last := start + |f| - 1;
    assert f == [StartTag(e.name, e.attributes)] + FlattenAll(e.children) + [EndTag(e.name)];
    assert events[start] == f[0];
    FlattenNodeNested(Elem(e));
    assert Balance(f[..|f| - 1]) == 1 by {
      assert f[..|f|] == f;
      assert Balance(f) == Balance(f[..|f| - 1]) + Delta(f[|f| - 1]);
    }
    Window(before, f, after, last);
    forall k | start < k < last
      ensures !IsEndOfTag(events, start, k) && !events[k].FaultEvent?
    {
      Window(before, f, after, k);
      NoFaultEvents(e.children);
      assert f[k - start] == FlattenAll(e.children)[k - start - 1];
    }
  }

  /** A position inside an element's events, seen from the element's
      start tag within the whole stream. */
  lemma Window(before: seq<Event>, f: seq<Event>, after: seq<Event>, k: nat)
    requires |f| >= 1 && f[0].StartTag? && |before| < k < |before| + |f|
    ensures (before + f + after)[k] == f[k - |before|]
    ensures Balance((before + f + after)[|before| + 1..k]) == Balance(f[..k - |before|]) - 1
  {
    var events := before + f + after;
    var start := |before|;
    assert events[start + 1..k] == f[1..k - start];
    assert f[..k - start] == f[..1] + f[1..k - start];
    BalanceAppend(f[..1], f[1..k - start]);
    assert f[..1][..0] == [];
  }
}
