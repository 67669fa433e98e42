/** The loop every feed parser runs over an element's children: nextTag to
    the next child element, handle it, repeat until the element's end tag.
    As a left fold over the children: white-space text is passed over, any
    other text or a break stops the fold with the exception nextTag raises,
    and an element is handed to the parser's own step, which may throw. */
module ChildScan {
  import opened JavaLang
  import opened XmlPull

  /** The fold's value: the parser's accumulated state, and the exception
      that ended the loop early, if any. */
  datatype Scan<S> = Scan(state: S, thrown: Option<Exception>)

  function FoldChildren<S>(step: (S, Element) -> Scan<S>, s0: S, nodes: seq<Node>): Scan<S>
    decreases |nodes|
  {
    if nodes == [] then Scan(s0, None)
    else
      var before := FoldChildren(step, s0, nodes[..|nodes| - 1]);
      var last := nodes[|nodes| - 1];
      if before.thrown.Some? then before
      else if last.Elem? then step(before.state, last.element)
      else if IsBlank(last) then before
      else Scan(before.state, Some(Checked(FaultAt(last))))
  }

  /** Passing over blank text changes nothing. */
  lemma {:induction false} FoldBlank<S>(step: (S, Element) -> Scan<S>, s0: S, nodes: seq<Node>, i: nat, j: nat)
    requires i <= j <= |nodes| && AllBlank(nodes, i, j)
    ensures FoldChildren(step, s0, nodes[..j]) == FoldChildren(step, s0, nodes[..i])
    decreases j
  {
    if i < j {
      FoldBlank(step, s0, nodes, i, j - 1);
      assert nodes[..j][..j - 1] == nodes[..j - 1];
      assert nodes[..j][j - 1] == nodes[j - 1];
    }
  }

  /** Once an exception is thrown, the rest of the children are not read. */
  lemma {:induction false} FoldSticky<S>(step: (S, Element) -> Scan<S>, s0: S, nodes: seq<Node>, j: nat)
    requires j <= |nodes| && FoldChildren(step, s0, nodes[..j]).thrown.Some?
    ensures FoldChildren(step, s0, nodes) == FoldChildren(step, s0, nodes[..j])
    decreases |nodes| - j
  {
    if j < |nodes| {
      assert nodes[..j + 1][..j] == nodes[..j];
      FoldSticky(step, s0, nodes, j + 1);
    } else {
      assert nodes[..j] == nodes;
    }
  }

  /** One more child element: the parser's step on the state so far. */
  lemma FoldElement<S>(step: (S, Element) -> Scan<S>, s0: S, nodes: seq<Node>, j: nat)
    requires j < |nodes| && nodes[j].Elem?
    requires FoldChildren(step, s0, nodes[..j]).thrown.None?
    ensures FoldChildren(step, s0, nodes[..j + 1]) == step(FoldChildren(step, s0, nodes[..j]).state, nodes[j].element)
  {
    assert nodes[..j + 1][..j] == nodes[..j];
  }

  /** One more child that is neither an element nor blank: nextTag throws. */
  lemma FoldThrows<S>(step: (S, Element) -> Scan<S>, s0: S, nodes: seq<Node>, j: nat)
    requires j < |nodes| && !nodes[j].Elem? && !IsBlank(nodes[j])
    requires FoldChildren(step, s0, nodes[..j]).thrown.None?
    ensures FoldChildren(step, s0, nodes[..j + 1])
         == Scan(FoldChildren(step, s0, nodes[..j]).state, Some(Checked(FaultAt(nodes[j]))))
  {
    assert nodes[..j + 1][..j] == nodes[..j];
  }

  /** The three outcomes of one nextTag call in the parsers' loops, over
      the children read so far (nodes[..i]). nextTag reached the end tag:
      the fold is done. */
  lemma FoldAtEnd<S>(step: (S, Element) -> Scan<S>, s0: S, nodes: seq<Node>, i: nat)
    requires i <= |nodes| && NextTag(nodes, i).AtEnd?
    ensures FoldChildren(step, s0, nodes) == FoldChildren(step, s0, nodes[..i])
  {
    FoldBlank(step, s0, nodes, i, |nodes|);
    assert nodes[..|nodes|] == nodes;
  }

  /** nextTag threw: so does the fold, and nothing after is read. */
  lemma FoldAtThrow<S>(step: (S, Element) -> Scan<S>, s0: S, nodes: seq<Node>, i: nat)
    requires i <= |nodes| && NextTag(nodes, i).Threw?
    requires FoldChildren(step, s0, nodes[..i]).thrown.None?
    ensures FoldChildren(step, s0, nodes)
         == Scan(FoldChildren(step, s0, nodes[..i]).state, Some(Checked(NextTag(nodes, i).fault)))
  {
    var j := NextTag(nodes, i).index;
    FoldBlank(step, s0, nodes, i, j);
    FoldThrows(step, s0, nodes, j);
    FoldSticky(step, s0, nodes, j + 1);
  }

  /** nextTag found a child element: the fold takes the parser's step on
      it. */
  lemma FoldAtElement<S>(step: (S, Element) -> Scan<S>, s0: S, nodes: seq<Node>, i: nat)
    requires i <= |nodes| && NextTag(nodes, i).AtStart?
    requires FoldChildren(step, s0, nodes[..i]).thrown.None?
    ensures FoldChildren(step, s0, nodes[..NextTag(nodes, i).index + 1])
         == step(FoldChildren(step, s0, nodes[..i]).state, nodes[NextTag(nodes, i).index].element)
  {
    var j := NextTag(nodes, i).index;
    FoldBlank(step, s0, nodes, i, j);
    FoldElement(step, s0, nodes, j);
  }

  /** Children that are all elements or blank text are read to the end. */
  lemma {:induction false} FoldNoThrowWhenClean<S>(step: (S, Element) -> Scan<S>, s0: S, nodes: seq<Node>)
    requires forall k :: 0 <= k < |nodes| ==> nodes[k].Elem? || IsBlank(nodes[k])
    requires forall s, e :: step(s, e).thrown.None?
    ensures FoldChildren(step, s0, nodes).thrown.None?
    decreases |nodes|
  {
    if nodes != [] {
      FoldNoThrowWhenClean(step, s0, nodes[..|nodes| - 1]);
    }
  }
}
