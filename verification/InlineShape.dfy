/** The shape of built trees: wrappers are never redundant. */
module InlineShape {
  import opened Common
  import opened Inline
  import opened InlineProofs

  function WrapperOf(node: Phrasing): Option<Style> {
    match node
    case Strong(_) => Some(Bold)
    case Emphasis(_) => Some(Italic)
    case Delete(_) => Some(Strike)
    case _ => None
  }

  /** No wrapper inside the same wrapper, at any depth; `open` are the wrappers around. */
  predicate NeverNested(nodes: seq<Phrasing>, open: Styles)
    decreases nodes
  {
    nodes == [] || (NodeNeverNested(nodes[0], open) && NeverNested(nodes[1..], open))
  }

  predicate NodeNeverNested(node: Phrasing, open: Styles)
    decreases node
  {
    match node
    case Strong(children) => !open.bold && NeverNested(children, open.With(Bold))
    case Emphasis(children) => !open.italic && NeverNested(children, open.With(Italic))
    case Delete(children) => !open.strike && NeverNested(children, open.With(Strike))
    case LinkNode(_, _, children) => NeverNested(children, open)
    case _ => true
  }

  /** No two neighbouring siblings are the same wrapper, at any depth. */
  predicate NeverAdjacent(nodes: seq<Phrasing>)
    decreases nodes
  {
    nodes == [] ||
    (NodeNeverAdjacent(nodes[0]) && NeverAdjacent(nodes[1..]) &&
     (|nodes| > 1 && WrapperOf(nodes[0]).Some? ==> WrapperOf(nodes[0]) != WrapperOf(nodes[1])))
  }

  predicate NodeNeverAdjacent(node: Phrasing)
    decreases node
  {
    match node
    case Strong(children) => NeverAdjacent(children)
    case Emphasis(children) => NeverAdjacent(children)
    case Delete(children) => NeverAdjacent(children)
    case LinkNode(_, _, children) => NeverAdjacent(children)
    case _ => true
  }

  predicate Disjoint(atoms: seq<Atom>, open: Styles) {
    forall i :: 0 <= i < |atoms| && atoms[i].Item? && atoms[i].item.Text? ==>
      var s := atoms[i].item.styles;
      !(s.strike && open.strike) && !(s.italic && open.italic) && !(s.bold && open.bold)
  }

  lemma {:induction false} ShapeSplit(a: seq<Phrasing>, b: seq<Phrasing>, open: Styles)
    requires NeverNested(a, open) && NeverNested(b, open) && NeverAdjacent(a) && NeverAdjacent(b)
    requires a != [] && b != [] && WrapperOf(a[|a| - 1]).Some? ==> WrapperOf(a[|a| - 1]) != WrapperOf(b[0])
    ensures NeverNested(a + b, open) && NeverAdjacent(a + b)
    decreases |a|
  {
    if a == [] {
      assert a + b == b;
    } else {
      assert (a + b)[1..] == a[1..] + b;
      ShapeSplit(a[1..], b, open);
    }
  }

  lemma {:induction false} ShapeOne(node: Phrasing, open: Styles)
    ensures NeverNested([node], open) == NodeNeverNested(node, open)
    ensures NeverAdjacent([node]) == NodeNeverAdjacent(node)
  {
    assert [node][1..] == [];
    assert NeverNested([], open) && NeverAdjacent([]);
  }

  predicate Leaves(nodes: seq<Phrasing>) {
    forall i :: 0 <= i < |nodes| ==> nodes[i].TextNode? || nodes[i].Embed?
  }

  lemma {:induction false} LeavesShape(nodes: seq<Phrasing>, open: Styles)
    requires Leaves(nodes)
    ensures NeverNested(nodes, open) && NeverAdjacent(nodes)
    decreases |nodes|
  {
    if nodes != [] {
      LeavesShape(nodes[1..], open);
      assert WrapperOf(nodes[0]) == None;
      assert NodeNeverNested(nodes[0], open) && NodeNeverAdjacent(nodes[0]);
    }
  }

  lemma LeavesSplit(text: string, name: string, rest: seq<Phrasing>)
    requires Leaves(rest)
    ensures Leaves(Literal(text) + [Embed(name)] + rest)
  {}

  lemma {:induction false} EmbedsAreLeaves(value: string, last: nat, at: nat, nodes: seq<Phrasing>)
    requires last <= at <= |value| && nodes == EmbedsFrom(value, last, at)
    ensures Leaves(nodes)
    ensures last < |value| ==> nodes != []
    decreases |value| - at
  {
    if at < |value| {
      var n := EmbedLength(value[at..]);
      if n == 0 {
        EmbedsAreLeaves(value, last, at + 1, nodes);
      } else {
        var end := at + n;
        var rest := EmbedsFrom(value, end, end);
        EmbedsAreLeaves(value, end, end, rest);
        EmbedsUnfold(value, last, at, end);
        LeavesSplit(value[last..at], value[at + 3..end - 2], rest);
      }
    }
  }

  lemma {:induction false} TextOrEmbedsShape(value: string, open: Styles)
    ensures var nodes := TextOrEmbeds(value);
      nodes != [] && Leaves(nodes) && NeverNested(nodes, open) && NeverAdjacent(nodes)
  {
    if HasEmbed(value) { EmbedsAreLeaves(value, 0, 0, EmbedsFrom(value, 0, 0)); }
    LeavesShape(TextOrEmbeds(value), open);
  }

  /** The first node of a built tree wraps with a style its first atom has. */
  lemma {:induction false} BuildShape(atoms: seq<Atom>, open: Styles)
    requires TypedAtoms(atoms) && Disjoint(atoms, open)
    requires open == Plain || Textual(atoms)
    ensures NeverNested(Build(atoms), open) && NeverAdjacent(Build(atoms))
    ensures atoms != [] ==> Build(atoms) != [] && StartsLike(atoms[0], Build(atoms)[0])
    decreases LinkRank(atoms), StyleTotal(atoms), |atoms|, 1
  {
    if atoms != [] {
      var n := HeadLength(atoms);
      HeadShape(atoms, open);
      RestSmaller(atoms, n);
      BuildShape(atoms[n..], open);
      HeadThenRestShape(atoms, open);
    }
  }

  lemma {:induction false} HeadThenRestShape(atoms: seq<Atom>, open: Styles)
    requires TypedAtoms(atoms) && atoms != []
    requires var head, n := BuildHead(atoms), HeadLength(atoms);
      && head != [] && NeverNested(head, open) && NeverAdjacent(head) && StartsLike(atoms[0], head[0])
      && (n < |atoms| ==> !EndsLike(atoms[n], head))
    requires var rest, later := Build(atoms[HeadLength(atoms)..]), atoms[HeadLength(atoms)..];
      && NeverNested(rest, open) && NeverAdjacent(rest)
      && (if later == [] then rest == [] else rest != [] && StartsLike(later[0], rest[0]))
    ensures NeverNested(Build(atoms), open) && NeverAdjacent(Build(atoms))
    ensures Build(atoms) != [] && StartsLike(atoms[0], Build(atoms)[0])
  {
    ShapeSplit(BuildHead(atoms), Build(atoms[HeadLength(atoms)..]), open);
  }

  predicate StartsLike(atom: Atom, node: Phrasing) {
    WrapperOf(node).Some? ==> atom.Item? && atom.item.Text? && atom.item.styles.Has(WrapperOf(node).value)
  }

  predicate EndsLike(atom: Atom, nodes: seq<Phrasing>)
    requires nodes != []
  {
    var last := WrapperOf(nodes[|nodes| - 1]);
    last.Some? && atom.Item? && atom.item.Text? && atom.item.styles.Has(last.value)
  }

  lemma {:induction false} HeadShape(atoms: seq<Atom>, open: Styles)
    requires TypedAtoms(atoms) && Disjoint(atoms, open) && atoms != []
    requires open == Plain || Textual(atoms)
    ensures var head := BuildHead(atoms);
      && head != [] && NeverNested(head, open) && NeverAdjacent(head) && StartsLike(atoms[0], head[0])
      && (HeadLength(atoms) < |atoms| ==> !EndsLike(atoms[HeadLength(atoms)], head))
    decreases LinkRank(atoms), StyleTotal(atoms), |atoms|, 0
  {
    if Wraps(atoms[0]) {
      WrapperShape(atoms, open);
    } else {
      if atoms[0].Item? && atoms[0].item.Link? {
        SplitTextOnly(atoms[0].item.content);
        BuildShape(SplitBreaks(atoms[0].item.content), Plain);
      }
      LeafShape(atoms, BuildHead(atoms), open);
    }
  }

  predicate ContentShaped(content: seq<Inline>) {
    TypedAtoms(SplitBreaks(content)) && NeverNested(Build(SplitBreaks(content)), Plain)
      && NeverAdjacent(Build(SplitBreaks(content)))
  }

  /** A head that is no wrapper. */
  lemma {:induction false} LeafShape(atoms: seq<Atom>, head: seq<Phrasing>, open: Styles)
    requires TypedAtoms(atoms) && atoms != [] && !Wraps(atoms[0]) && head == BuildHead(atoms)
    requires open == Plain || Textual(atoms)
    requires atoms[0].Item? && atoms[0].item.Link? ==> ContentShaped(atoms[0].item.content)
    ensures head != [] && NeverNested(head, open) && NeverAdjacent(head) && NoWrapperEnds(head)
  {
    if atoms[0].Item? && atoms[0].item.Text? && atoms[0].item.styles.Active() == [] {
      TextOrEmbedsShape(atoms[0].item.text, open);
    } else {
      assert |head| == 1;
      OnlyNode(head[0], head, open);
    }
  }

  predicate NoWrapperEnds(nodes: seq<Phrasing>) {
    nodes != [] ==> WrapperOf(nodes[0]).None? && WrapperOf(nodes[|nodes| - 1]).None?
  }

  lemma {:induction false} OnlyNode(node: Phrasing, nodes: seq<Phrasing>, open: Styles)
    requires nodes == [node] && NodeNeverNested(node, open) && NodeNeverAdjacent(node)
    ensures NeverNested(nodes, open) && NeverAdjacent(nodes)
  {
    ShapeOne(node, open);
  }

  lemma {:induction false} WrapperShape(atoms: seq<Atom>, open: Styles)
    requires TypedAtoms(atoms) && Disjoint(atoms, open) && atoms != [] && Wraps(atoms[0])
    ensures var head := BuildHead(atoms);
      && |head| == 1 && NeverNested(head, open) && NeverAdjacent(head) && StartsLike(atoms[0], head[0])
      && (HeadLength(atoms) < |atoms| ==> !EndsLike(atoms[HeadLength(atoms)], head))
    decreases LinkRank(atoms), StyleTotal(atoms), 0
  {
    var outer := atoms[0].item.styles.Active()[0];
    assert atoms[0].item.styles.Has(outer);
    HeadInnerSmaller(atoms);
    BuildShape(HeadInner(atoms), open.With(outer));
    HeadIsWrapper(atoms);
    WrapperAlone(outer, Build(HeadInner(atoms)), open);
  }

  lemma {:induction false} WrapperAlone(outer: Style, children: seq<Phrasing>, open: Styles)
    requires outer != Code && !open.Has(outer)
    requires NeverNested(children, open.With(outer)) && NeverAdjacent(children)
    ensures NeverNested([Wrapper(outer, children)], open) && NeverAdjacent([Wrapper(outer, children)])
    ensures WrapperOf(Wrapper(outer, children)) == Some(outer)
  {
    ShapeOne(Wrapper(outer, children), open);
  }

  /** A rebuilt tree wraps no style twice and splits no run that could share a wrapper. */
  lemma BuildIsWellNested(items: seq<Inline>)
    requires WellTyped(items)
    ensures NeverNested(FromInline(items), Plain) && NeverAdjacent(FromInline(items))
  {
    SplitTyped(items);
    BuildShape(SplitBreaks(items), Plain);
  }
}
