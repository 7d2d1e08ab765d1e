/** Which phrasing trees the flat form gives back as they were, as a condition on the tree
    alone, and that every rebuilt tree meets it. */
module InlineCanon {
  import opened Common
  import opened Inline
  import opened InlineProofs
  import opened InlineShape
  import opened InlineStable

  // ----- the condition -----

  /** The styles of the first leaf of a node: its code style and the wrappers around it. */
  function Lead(node: Phrasing): Styles
    decreases node, 1
  {
    match node
    case InlineCode(_) => Plain.With(Code)
    case Strong(children) => LeadOf(children).With(Bold)
    case Emphasis(children) => LeadOf(children).With(Italic)
    case Delete(children) => LeadOf(children).With(Strike)
    case _ => Plain
  }

  function LeadOf(nodes: seq<Phrasing>): Styles
    decreases nodes, 0
  {
    if nodes == [] then Plain else Lead(nodes[0])
  }

  predicate Leaf(node: Phrasing) {
    node.TextNode? || node.Embed?
  }

  /** Neighbours that stay apart: texts and code runs are merged, an empty text is swallowed by
      an embed or a break, and a wrapper is closed only where its style ends. */
  predicate Fits(a: Phrasing, b: Phrasing) {
    && !(a.TextNode? && b.TextNode?)
    && !(a.InlineCode? && b.InlineCode?)
    && !(a == TextNode("") && (b.Embed? || b.Break?))
    && !(b == TextNode("") && (a.Embed? || a.Break?))
    && (WrapperOf(a).Some? ==> !Lead(b).Has(WrapperOf(a).value))
  }

  /** Nothing in `styles` comes before `style` in the fixed order. */
  predicate Outermost(style: Style, styles: Styles) {
    (style == Italic ==> !styles.strike) && (style == Bold ==> !styles.strike && !styles.italic)
  }

  /** A wrapper is new, not empty, and the first style of its own first leaf. */
  predicate CanonicalWrapper(style: Style, children: seq<Phrasing>, open: Styles, inLink: bool)
    decreases children, 1
  {
    && !open.Has(style) && children != [] && Outermost(style, LeadOf(children))
    && Canonical(children, open.With(style), inLink)
  }

  predicate CanonicalNode(node: Phrasing, open: Styles, inLink: bool)
    decreases node, 0
  {
    match node
    case TextNode(value) => '\n' !in value && !HasEmbed(value)
    case Break => open == Plain
    case InlineCode(value) => '\n' !in value
    case Strong(children) => CanonicalWrapper(Bold, children, open, inLink)
    case Emphasis(children) => CanonicalWrapper(Italic, children, open, inLink)
    case Delete(children) => CanonicalWrapper(Strike, children, open, inLink)
    case LinkNode(_, title, children) => open == Plain && !inLink && title.None? && Canonical(children, Plain, true)
    case Embed(value) => EmbedName(value)
    case WikiNode(value, data) =>
      open == Plain && !inLink && data.Some? && (data.value == value || data.value != "")
    case Image(_, _, _) => false
    case Foreign(_) => false
  }

  /** `open` are the wrappers around the nodes, `inLink` says whether a link is. */
  predicate Canonical(nodes: seq<Phrasing>, open: Styles, inLink: bool)
    decreases nodes, 0
  {
    nodes == [] ||
    (CanonicalNode(nodes[0], open, inLink) && Canonical(nodes[1..], open, inLink) &&
     (|nodes| > 1 ==> Fits(nodes[0], nodes[1])))
  }

  lemma {:induction false} CanonicalJoin(a: seq<Phrasing>, b: seq<Phrasing>, open: Styles, inLink: bool)
    requires Canonical(a, open, inLink) && Canonical(b, open, inLink)
    requires a != [] && b != [] ==> Fits(a[|a| - 1], b[0])
    ensures Canonical(a + b, open, inLink)
    decreases |a|
  {
    if a == [] {
      assert a + b == b;
    } else {
      assert (a + b)[1..] == a[1..] + b;
      CanonicalJoin(a[1..], b, open, inLink);
    }
  }

  lemma {:induction false} CanonicalOne(node: Phrasing, open: Styles, inLink: bool)
    ensures Canonical([node], open, inLink) == CanonicalNode(node, open, inLink)
  {
    assert [node][1..] == [];
    assert Canonical([], open, inLink);
  }

  // ----- what a text splits into -----

  /** Leaves, none of them an empty text. */
  predicate FullLeaves(nodes: seq<Phrasing>) {
    forall i :: 0 <= i < |nodes| ==> Leaf(nodes[i]) && nodes[i] != TextNode("")
  }

  /** No embed starts in `value[last..at]`, even if it ends later. */
  predicate NoEmbedIn(value: string, last: nat, at: nat)
    requires last <= at <= |value|
  {
    forall p :: last <= p < at ==> EmbedLength(value[p..]) == 0
  }

  lemma NoEmbedInPart(value: string, last: nat, at: nat)
    requires last <= at <= |value|
    requires NoEmbedIn(value, last, at)
    ensures !HasEmbed(value[last..at])
  {
    var part := value[last..at];
    forall i | 0 <= i < |part| ensures EmbedLength(part[i..]) == 0 {
      var n := EmbedLength(part[i..]);
      if n > 0 {
        var name := part[i..][3..n - 2];
        EmbedFound(part[i..], name);
        assert EmbedText(name) == part[i..][..n] == value[last + i..][..n];
        EmbedFound(value[last + i..], name);
        assert false;
      }
    }
  }

  lemma {:induction false} LiteralCanonical(value: string, last: nat, at: nat, open: Styles, inLink: bool)
    requires last <= at <= |value| && '\n' !in value
    requires NoEmbedIn(value, last, at)
    ensures Canonical(Literal(value[last..at]), open, inLink) && FullLeaves(Literal(value[last..at]))
  {
    NoEmbedInPart(value, last, at);
    if last < at { CanonicalOne(TextNode(value[last..at]), open, inLink); }
  }

  lemma {:induction false} EmbedsCanonical(
    value: string, last: nat, at: nat, open: Styles, inLink: bool, nodes: seq<Phrasing>)
    requires last <= at <= |value| && '\n' !in value && nodes == EmbedsFrom(value, last, at)
    requires NoEmbedIn(value, last, at)
    ensures Canonical(nodes, open, inLink) && FullLeaves(nodes)
    decreases |value| - at
  {
    if at == |value| {
      assert value[last..at] == value[last..];
      LiteralCanonical(value, last, at, open, inLink);
    } else {
      var n := EmbedLength(value[at..]);
      if n == 0 {
        EmbedsCanonical(value, last, at + 1, open, inLink, nodes);
      } else {
        var end := at + n;
        var rest := EmbedsFrom(value, end, end);
        EmbedsCanonical(value, end, end, open, inLink, rest);
        EmbedCanonical(value, last, at, end, open, inLink, rest, nodes);
      }
    }
  }

  lemma {:induction false} EmbedCanonical(
    value: string, last: nat, at: nat, end: nat, open: Styles, inLink: bool, rest: seq<Phrasing>, nodes: seq<Phrasing>)
    requires last <= at < end <= |value| && '\n' !in value && end - at == EmbedLength(value[at..])
    requires nodes == EmbedsFrom(value, last, at) && rest == EmbedsFrom(value, end, end)
    requires NoEmbedIn(value, last, at)
    requires Canonical(rest, open, inLink) && FullLeaves(rest)
    ensures Canonical(nodes, open, inLink) && FullLeaves(nodes)
  {
    EmbedsUnfold(value, last, at, end);
    LiteralCanonical(value, last, at, open, inLink);
    assert value[at..][3..end - at - 2] == value[at + 3..end - 2];
    EmbedFound(value[at..], value[at + 3..end - 2]);
    EmbedJoin(Literal(value[last..at]), value[at + 3..end - 2], rest, open, inLink);
  }

  lemma {:induction false} EmbedJoin(
    text: seq<Phrasing>, name: string, rest: seq<Phrasing>, open: Styles, inLink: bool)
    requires |text| <= 1 && (text != [] ==> text[0].TextNode?) && EmbedName(name)
    requires Canonical(text, open, inLink) && FullLeaves(text)
    requires Canonical(rest, open, inLink) && FullLeaves(rest)
    ensures Canonical(text + [Embed(name)] + rest, open, inLink) && FullLeaves(text + [Embed(name)] + rest)
  {
    CanonicalOne(Embed(name), open, inLink);
    CanonicalJoin(text, [Embed(name)], open, inLink);
    CanonicalJoin(text + [Embed(name)], rest, open, inLink);
  }

  predicate AllLeaves(nodes: seq<Phrasing>) {
    forall i :: 0 <= i < |nodes| ==> Leaf(nodes[i])
  }

  lemma {:induction false} TextOrEmbedsCanonical(value: string, open: Styles, inLink: bool)
    requires '\n' !in value
    ensures var nodes := TextOrEmbeds(value);
      && Canonical(nodes, open, inLink) && nodes != [] && AllLeaves(nodes)
      && (TextNode("") in nodes ==> value == "")
  {
    TextOrEmbedsShape(value, open);
    if HasEmbed(value) {
      EmbedsCanonical(value, 0, 0, open, inLink, EmbedsFrom(value, 0, 0));
    } else {
      CanonicalOne(TextNode(value), open, inLink);
    }
  }

  // ----- what a tree is built from -----

  /** What splitting merged runs at newlines gives. */
  predicate Loose(atoms: seq<Atom>) {
    NoNewlines(atoms) && AllFar(atoms)
  }

  predicate LooseLink(atom: Atom) {
    atom.Item? && atom.item.Link? ==> TextOnly(atom.item.content) && Loose(SplitBreaks(atom.item.content))
  }

  predicate Ready(atoms: seq<Atom>) {
    Loose(atoms) && forall i :: 0 <= i < |atoms| ==> LooseLink(atoms[i])
  }

  predicate Placed(atom: Atom, open: Styles, inLink: bool) {
    if IsText(atom) then
      var own := atom.item.styles;
      !(own.strike && open.strike) && !(own.italic && open.italic) && !(own.bold && open.bold)
    else open == Plain && (inLink ==> atom.HardBreak?)
  }

  predicate AllPlaced(atoms: seq<Atom>, open: Styles, inLink: bool) {
    forall i :: 0 <= i < |atoms| ==> Placed(atoms[i], open, inLink)
  }

  function StylesOf(atom: Atom): Styles {
    if IsText(atom) then atom.item.styles else Plain
  }

  /** `node` is the first node built from `atom` and what follows. */
  predicate StartsAs(atom: Atom, node: Phrasing) {
    && Lead(node) == StylesOf(atom)
    && (Leaf(node) ==> IsText(atom))
    && (node == TextNode("") ==> atom.item.text == "")
    && (node.Break? ==> atom.HardBreak?)
    && (node.InlineCode? ==> IsText(atom))
  }

  /** `node` is the last node built in the turn that starts with `atom`. */
  predicate EndsAs(atom: Atom, node: Phrasing) {
    if Wraps(atom) then WrapperOf(node) == Some(atom.item.styles.Active()[0])
    else WrapperOf(node).None? && StartsAs(atom, node)
  }

  lemma FitWhereTheyMeet(a: Atom, last: Phrasing, b: Atom, next: Phrasing)
    requires EndsAs(a, last) && StartsAs(b, next)
    requires if Wraps(a) then !StylesOf(b).Has(a.item.styles.Active()[0]) else !Near(a, b)
    ensures Fits(last, next)
  {}

  lemma ReadyRest(atoms: seq<Atom>, n: nat)
    requires Ready(atoms) && n <= |atoms|
    ensures Ready(atoms[n..])
  {
    FarRest(atoms, n);
  }

  lemma {:induction false} BuildCanonical(atoms: seq<Atom>, open: Styles, inLink: bool)
    requires TypedAtoms(atoms) && Ready(atoms) && AllPlaced(atoms, open, inLink)
    ensures Canonical(Build(atoms), open, inLink)
    ensures atoms != [] ==> Build(atoms) != [] && StartsAs(atoms[0], Build(atoms)[0])
    decreases LinkRank(atoms), StyleTotal(atoms), |atoms|, 1
  {
    if atoms != [] {
      var n := HeadLength(atoms);
      HeadCanonical(atoms, BuildHead(atoms), open, inLink);
      RestSmaller(atoms, n);
      ReadyRest(atoms, n);
      BuildCanonical(atoms[n..], open, inLink);
      if n < |atoms| {
        assert Far(atoms, 0);
        var head := BuildHead(atoms);
        FitWhereTheyMeet(atoms[0], head[|head| - 1], atoms[n], Build(atoms[n..])[0]);
      }
      CanonicalJoin(BuildHead(atoms), Build(atoms[n..]), open, inLink);
    }
  }

  lemma {:induction false} HeadCanonical(atoms: seq<Atom>, head: seq<Phrasing>, open: Styles, inLink: bool)
    requires TypedAtoms(atoms) && Ready(atoms) && AllPlaced(atoms, open, inLink)
    requires atoms != [] && head == BuildHead(atoms)
    ensures head != [] && Canonical(head, open, inLink)
    ensures StartsAs(atoms[0], head[0]) && EndsAs(atoms[0], head[|head| - 1])
    decreases LinkRank(atoms), StyleTotal(atoms), |atoms|, 0
  {
    if Wraps(atoms[0]) {
      WrapperCanonical(atoms, open, inLink);
    } else {
      if atoms[0].Item? && atoms[0].item.Link? {
        assert LooseLink(atoms[0]);
        var content := atoms[0].item.content;
        SplitTextOnly(content);
        BuildCanonical(SplitBreaks(content), Plain, true);
      }
      LeafHeadCanonical(atoms, head, open, inLink);
    }
  }

  lemma {:induction false} LeafHeadCanonical(atoms: seq<Atom>, head: seq<Phrasing>, open: Styles, inLink: bool)
    requires TypedAtoms(atoms) && atoms != [] && !Wraps(atoms[0]) && head == BuildHead(atoms)
    requires Placed(atoms[0], open, inLink) && (IsText(atoms[0]) ==> '\n' !in atoms[0].item.text)
    requires atoms[0].Item? && atoms[0].item.Link? ==> Canonical(FromInline(atoms[0].item.content), Plain, true)
    ensures head != [] && Canonical(head, open, inLink)
    ensures StartsAs(atoms[0], head[0]) && EndsAs(atoms[0], head[|head| - 1])
  {
    if IsText(atoms[0]) {
      TextHeadCanonical(atoms[0].item.text, atoms[0].item.styles, head, open, inLink);
    } else {
      CanonicalOne(head[0], open, inLink);
    }
  }

  lemma {:induction false} TextHeadCanonical(
    value: string, styles: Styles, head: seq<Phrasing>, open: Styles, inLink: bool)
    requires '\n' !in value
    requires if styles.Active() == [] then head == TextOrEmbeds(value)
             else styles.Active()[0] == Code && head == [InlineCode(value)]
    ensures head != [] && Canonical(head, open, inLink)
    ensures StartsAs(Item(Text(value, styles)), head[0]) && EndsAs(Item(Text(value, styles)), head[|head| - 1])
  {
    if styles.Active() == [] {
      TextOrEmbedsCanonical(value, open, inLink);
      LeafEnds(value, styles, head[0]);
      LeafEnds(value, styles, head[|head| - 1]);
    } else {
      CanonicalOne(InlineCode(value), open, inLink);
      CodeEnds(value, styles);
    }
  }

  lemma LeafEnds(value: string, styles: Styles, node: Phrasing)
    requires styles.Active() == [] && Leaf(node) && (node == TextNode("") ==> value == "")
    ensures StartsAs(Item(Text(value, styles)), node) && EndsAs(Item(Text(value, styles)), node)
  {}

  lemma CodeEnds(value: string, styles: Styles)
    requires styles.Active() != [] && styles.Active()[0] == Code
    ensures StartsAs(Item(Text(value, styles)), InlineCode(value))
      && EndsAs(Item(Text(value, styles)), InlineCode(value))
  {}

  lemma {:induction false} WrapperCanonical(atoms: seq<Atom>, open: Styles, inLink: bool)
    requires TypedAtoms(atoms) && Ready(atoms) && AllPlaced(atoms, open, inLink)
    requires atoms != [] && Wraps(atoms[0])
    ensures var head := BuildHead(atoms);
      |head| == 1 && Canonical(head, open, inLink) && StartsAs(atoms[0], head[0]) && EndsAs(atoms[0], head[0])
    decreases LinkRank(atoms), StyleTotal(atoms), 0
  {
    var outer := atoms[0].item.styles.Active()[0];
    var inner := HeadInner(atoms);
    HeadInnerSmaller(atoms);
    InnerReady(atoms, open, inLink);
    BuildCanonical(inner, open.With(outer), inLink);
    HeadIsWrapper(atoms);
    WrapperNode(outer, Build(inner), atoms[0].item.styles, open, inLink);
    assert Placed(atoms[0], open, inLink);
    CanonicalOne(Wrapper(outer, Build(inner)), open, inLink);
  }

  lemma {:induction false} InnerReady(atoms: seq<Atom>, open: Styles, inLink: bool)
    requires TypedAtoms(atoms) && Ready(atoms) && AllPlaced(atoms, open, inLink)
    requires atoms != [] && Wraps(atoms[0])
    ensures var outer, inner := atoms[0].item.styles.Active()[0], HeadInner(atoms);
      && TypedAtoms(inner) && Ready(inner) && AllPlaced(inner, open.With(outer), inLink)
      && inner != [] && StylesOf(inner[0]) == atoms[0].item.styles.Without(outer)
  {
    var outer, inner := atoms[0].item.styles.Active()[0], HeadInner(atoms);
    forall i | 0 <= i < |inner| ensures Placed(inner[i], open.With(outer), inLink) {
      assert Placed(atoms[i], open, inLink);
    }
    forall i | 0 <= i < |inner| - 1 ensures Far(inner, i) {
      assert Far(atoms, i);
      assert atoms[i].item.styles.Has(outer) && atoms[i + 1].item.styles.Has(outer);
    }
  }

  lemma {:induction false} WrapperNode(
    outer: Style, children: seq<Phrasing>, styles: Styles, open: Styles, inLink: bool)
    requires styles.Active() != [] && styles.Active()[0] == outer != Code
    requires children != [] && Lead(children[0]) == styles.Without(outer)
    requires Canonical(children, open.With(outer), inLink)
    requires !open.Has(outer)
    ensures CanonicalNode(Wrapper(outer, children), open, inLink) && Lead(Wrapper(outer, children)) == styles
  {}
}
