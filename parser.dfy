/** What every feed parser shares (Parser.java): the result states, the
    one-shot dispatch on the document's root element, the <Error> document,
    and the rendering of a start tag for diagnostics. */
module Parser {
  import opened JavaLang
  import opened XmlPull

  datatype ResultState = NotDone | IoError | ParseError | Retry | MissingCookie | Success

  /** The state parse() records when it catches a checked exception. */
  function CaughtState(f: Fault): ResultState
  {
    match f
    case Malformed => ParseError
    case Unreadable => IoError
  }

  /** parseError on an <Error> root: RETRY only for shouldRetry exactly
      "true"; otherwise the element's text is read, whatever it says, and the
      document counts as a missing cookie, unless reading that text throws. */
  function ErrorDocumentState(root: Element): ResultState
  {
    if GetAttr(root, "shouldRetry") == Some("true") then Retry
    else
      var content := NextText(root);
      if content.Ok? then MissingCookie else CaughtState(content.error)
  }

  lemma ErrorDocumentStates(root: Element)
    ensures ErrorDocumentState(root) == Retry <==> GetAttr(root, "shouldRetry") == Some("true")
    ensures ErrorDocumentState(root) == MissingCookie <==>
      GetAttr(root, "shouldRetry") != Some("true") && forall k :: 0 <= k < |root.children| ==> root.children[k].Text?
    ensures ErrorDocumentState(root) in {Retry, MissingCookie, ParseError, IoError}
  {
  }

  /** How parse() proceeds from the document's start: finished with a state
      already, or on to the subclass's parseBody with the <body> root. */
  datatype Start = Finished(state: ResultState) | ToBody(body: Element)

  function Begin(input: Input): (r: Start)
    ensures r.ToBody? ==> input.Document? && r.body == input.root && r.body.name == "body"
  {
    match input
    case UnreadableInput(f) => Finished(CaughtState(f))
    case Document(root) =>
      if root.name == "Error" then Finished(ErrorDocumentState(root))
      else if root.name == "body" then ToBody(root)
      else Finished(ParseError)
  }

  /** The root element decides: <Error> is classified as an error document,
      <body> is parsed, anything else is a parse error. */
  lemma BeginDispatchesOnRoot(input: Input)
    ensures input.UnreadableInput? ==> Begin(input) == Finished(CaughtState(input.fault))
    ensures input.Document? && input.root.name == "Error" ==> Begin(input) == Finished(ErrorDocumentState(input.root))
    ensures input.Document? && input.root.name == "body" ==> Begin(input) == ToBody(input.root)
    ensures input.Document? && input.root.name != "Error" && input.root.name != "body" ==> Begin(input) == Finished(ParseError)
    ensures Begin(input).Finished? ==> Begin(input).state != NotDone && Begin(input).state != Success
  {
  }

  /** The state after parseBody: SUCCESS when it returns, the caught state
      for a checked exception; a runtime exception leaves parse() with the
      state untouched. */
  function StateAfterBody(thrown: Option<Exception>): ResultState
  {
    match thrown
    case None => Success
    case Some(Checked(f)) => CaughtState(f)
    case Some(_) => NotDone
  }

  /** The exception that escapes parse(), if any. */
  function Escaped(thrown: Option<Exception>): (r: Option<Exception>)
    ensures r.Some? <==> thrown.Some? && !thrown.value.Checked?
  {
    if thrown.Some? && !thrown.value.Checked? then thrown else None
  }

  /** SUCCESS exactly when parseBody returns normally, and NOT_DONE exactly
      when an exception escapes. */
  lemma StateAfterBodyCases(thrown: Option<Exception>)
    ensures StateAfterBody(thrown) == Success <==> thrown.None?
    ensures StateAfterBody(thrown) == NotDone <==> Escaped(thrown).Some?
  {
  }

  // -----------------------------------------------------------------------
  // renderTag

  function AttributeText(a: Attribute): string
  {
    " " + a.name + "=\"" + a.value + "\""
  }

  /** Each attribute rendered in index order. */
  function AttributesText(attributes: seq<Attribute>): string
  {
    if attributes == [] then "" else AttributeText(attributes[0]) + AttributesText(attributes[1..])
  }

  lemma {:induction false} AttributesTextSnoc(attributes: seq<Attribute>, i: nat)
    requires i < |attributes|
    ensures AttributesText(attributes[..i + 1]) == AttributesText(attributes[..i]) + AttributeText(attributes[i])
    decreases i
  {
    if i == 0 {
      assert attributes[..1] == [attributes[0]];
      assert attributes[..1][1..] == [];
    } else {
      var tail := attributes[1..];
      AttributesTextSnoc(tail, i - 1);
      assert attributes[..i + 1][1..] == tail[..i];
      assert attributes[..i][1..] == tail[..i - 1];
      assert tail[i - 1] == attributes[i];
    }
  }

  /** renderTag: "<", the name, then ` key="value"` per attribute in index
      order, then ">". */
  method RenderTag(e: Element) returns (s: string)
    ensures s == "<" + e.name + AttributesText(e.attributes) + ">"
  {
    s := "<" + e.name;
    for i := 0 to |e.attributes|
      invariant s == "<" + e.name + AttributesText(e.attributes[..i])
    {
      var a := e.attributes[i];
      s := s + " " + a.name + "=\"";
      s := s + a.value + "\"";
      AttributesTextSnoc(e.attributes, i);
    }
    assert e.attributes[..|e.attributes|] == e.attributes;
    s := s + ">";
  }

  /** The attribute text of a list is the text of its parts, so every
      attribute adds its own text at the end, in index order. */
  lemma {:induction false} RenderedAttributesAppend(a: seq<Attribute>, b: seq<Attribute>)
    ensures AttributesText(a + b) == AttributesText(a) + AttributesText(b)
    decreases |a|
  {
    if a != [] {
      assert (a + b)[1..] == a[1..] + b;
      RenderedAttributesAppend(a[1..], b);
    } else {
      assert a + b == b;
    }
  }
}
