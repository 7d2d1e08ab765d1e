/** The flat form gives a tree back as it was exactly when the tree is canonical. */
module InlineReturn {
  import opened Common
  import opened Inline
  import opened InlineProofs
  import opened InlineShape
  import opened InlineStable
  import opened InlineCanon

  // ----- a group of texts and embeds is one text -----

  function LeafText(node: Phrasing): string
    requires Leaf(node)
  {
    if node.TextNode? then node.value else EmbedText(node.value)
  }

  function GroupText(nodes: seq<Phrasing>): string
    requires AllLeaves(nodes)
  {
    if nodes == [] then "" else LeafText(nodes[0]) + GroupText(nodes[1..])
  }

  function LeafCount(nodes: seq<Phrasing>): (n: nat)
    ensures n <= |nodes| && AllLeaves(nodes[..n])
    ensures n < |nodes| ==> !Leaf(nodes[n])
  {
    if nodes == [] || !Leaf(nodes[0]) then 0 else 1 + LeafCount(nodes[1..])
  }

  /** An embed that starts inside a part of the text and does not reach past it is one of the part. */
  lemma PartEmbeds(value: string, last: nat, end: nat, p: nat, name: string)
    requires last <= p && p + |name| + 5 <= end <= |value|
    requires EmbedName(name) && EmbedText(name) <= value[p..]
    ensures HasEmbed(value[last..end])
  {
    var part := value[last..end];
    assert part[p - last..] == value[p..end];
    assert value[p..end] == value[p..][..end - p];
    EmbedFound(part[p - last..], name);
    assert EmbedLength(part[p - last..]) > 0;
  }

  /** No embed reaches into another one. */
  lemma StaysInside(value: string, p: nat, end: nat, name: string)
    requires p < end <= |value| && EmbedName(name) && EmbedText(name) <= value[p..]
    requires end < |value| ==> end + 1 < |value| && value[end] == '!' && value[end + 1] == '['
    ensures p + |name| + 5 <= end
  {
    var text := EmbedText(name);
    assert text[|name| + 3] == ']' && text[|name| + 4] == ']';
    assert forall i :: 3 <= i < |name| + 3 ==> text[i] == name[i - 3];
    assert forall i :: 0 <= i < |text| ==> value[p + i] == value[p..][i] == text[i];
    assert forall j :: p <= j < p + |text| ==> value[j] == text[j - p];
  }

  /** Where a text ends or an embed follows, no embed starts inside and reaches across. */
  lemma NoEmbedBefore(value: string, last: nat, end: nat)
    requires last <= end <= |value| && !HasEmbed(value[last..end])
    requires end < |value| ==> end + 1 < |value| && value[end] == '!' && value[end + 1] == '['
    ensures NoEmbedIn(value, last, end)
  {
    forall p | last <= p < end ensures EmbedLength(value[p..]) == 0 {
      var n := EmbedLength(value[p..]);
      if n > 0 {
        var name := value[p..][3..n - 2];
        EmbedFound(value[p..], name);
        StaysInside(value, p, end, name);
        PartEmbeds(value, last, end, p, name);
        assert false;
      }
    }
  }

  lemma {:induction false} ScanPast(value: string, last: nat, at: nat, end: nat)
    requires last <= at <= end <= |value| && NoEmbedIn(value, at, end)
    ensures EmbedsFrom(value, last, at) == EmbedsFrom(value, last, end)
    decreases end - at
  {
    if at < end { ScanPast(value, last, at + 1, end); }
  }

  lemma {:induction false} CanonicalRest(nodes: seq<Phrasing>, n: nat, open: Styles, inLink: bool)
    requires Canonical(nodes, open, inLink) && n <= |nodes|
    ensures Canonical(nodes[n..], open, inLink)
    decreases n
  {
    if n > 0 {
      CanonicalRest(nodes[1..], n - 1, open, inLink);
      assert nodes[1..][n - 1..] == nodes[n..];
    }
  }

  predicate GroupLeaf(node: Phrasing) {
    (node.TextNode? && node.value != "" && '\n' !in node.value && !HasEmbed(node.value)) ||
    (node.Embed? && EmbedName(node.value))
  }

  /** What splitting the embeds out of one text that is not empty can give. */
  predicate Group(nodes: seq<Phrasing>) {
    nodes == [] ||
    (GroupLeaf(nodes[0]) && Group(nodes[1..]) && (nodes[0].TextNode? && |nodes| > 1 ==> nodes[1].Embed?))
  }

  /** In a group an empty text stands alone. */
  lemma {:induction false} LeavesAreGroup(nodes: seq<Phrasing>, open: Styles, inLink: bool)
    requires AllLeaves(nodes) && Canonical(nodes, open, inLink) && nodes != [TextNode("")]
    ensures Group(nodes)
    decreases |nodes|
  {
    if nodes != [] {
      assert Leaf(nodes[0]);
      if |nodes| > 1 { assert Leaf(nodes[1]) && Fits(nodes[0], nodes[1]); }
      assert |nodes| > 1 ==> nodes[1..][0] == nodes[1];
      LeavesAreGroup(nodes[1..], open, inLink);
    }
  }

  lemma {:induction false} GroupLeaves(nodes: seq<Phrasing>)
    requires Group(nodes)
    ensures AllLeaves(nodes)
    decreases |nodes|
  {
    if nodes != [] { GroupLeaves(nodes[1..]); }
  }

  lemma {:induction false} LiteralFirst(value: string, last: nat, end: nat)
    requires last <= end < |value| && EmbedLength(value[end..]) > 0
    ensures EmbedsFrom(value, last, end) == Literal(value[last..end]) + EmbedsFrom(value, end, end)
  {
    var after := end + EmbedLength(value[end..]);
    var rest := EmbedsFrom(value, after, after);
    EmbedsUnfold(value, last, end, after);
    EmbedsUnfold(value, end, end, after);
    assert EmbedAfter(value, last, end, after) == Literal(value[last..end]) + EmbedAfter(value, end, end, after);
  }

  /** An embed at the front of the rest of a text is found there. */
  lemma {:induction false} EmbedAtFront(value: string, last: nat, after: nat, name: string, more: string)
    requires last <= |value| && value[last..] == EmbedText(name) + more && EmbedName(name)
    requires after == last + |name| + 5
    ensures after <= |value| && EmbedLength(value[last..]) == after - last
    ensures value[after..] == more
    ensures EmbedAfter(value, last, last, after) == [Embed(name)]
  {
    EmbedFound(value[last..], name);
    assert value[after..] == value[last..][|name| + 5..];
    assert value[last + 3..last + |name| + 3] == value[last..][3..|name| + 3];
  }

  /** Scanning the text of a group gives the group. */
  lemma {:induction false} GroupScans(value: string, last: nat, nodes: seq<Phrasing>)
    requires Group(nodes) && AllLeaves(nodes)
    requires last <= |value| && value[last..] == GroupText(nodes)
    ensures EmbedsFrom(value, last, last) == nodes
    decreases |nodes|
  {
    if nodes != [] {
      var rest := nodes[1..];
      if nodes[0].Embed? {
        var after := last + |nodes[0].value| + 5;
        EmbedAtFront(value, last, after, nodes[0].value, GroupText(rest));
        GroupScans(value, after, rest);
        EmbedScans(value, last, after, nodes[0].value, rest);
      } else {
        var end := last + |nodes[0].value|;
        TextSplits(value, last, end, nodes[0].value, GroupText(rest));
        GroupScans(value, end, rest);
        TextScans(value, last, end, nodes[0].value, rest);
      }
      assert nodes == [nodes[0]] + rest;
    }
  }

  lemma {:induction false} EmbedScans(value: string, last: nat, after: nat, name: string, rest: seq<Phrasing>)
    requires AllLeaves(rest) && EmbedName(name)
    requires last <= |value| && value[last..] == EmbedText(name) + GroupText(rest)
    requires after == last + |name| + 5 <= |value| && EmbedsFrom(value, after, after) == rest
    ensures EmbedsFrom(value, last, last) == [Embed(name)] + rest
  {
    EmbedAtFront(value, last, after, name, GroupText(rest));
    EmbedsUnfold(value, last, last, after);
  }

  lemma TextSplits(value: string, last: nat, end: nat, text: string, more: string)
    requires last <= |value| && end == last + |text| && value[last..] == text + more
    ensures end <= |value| && value[last..end] == text && value[end..] == more
  {
    assert value[last..end] == value[last..][..|text|];
    assert value[end..] == value[last..][|text|..];
  }

  /** A text that leads a group is scanned over. */
  lemma {:induction false} TextScans(value: string, last: nat, end: nat, text: string, rest: seq<Phrasing>)
    requires last < end <= |value| && value[last..end] == text && !HasEmbed(text)
    requires Group(rest) && AllLeaves(rest) && value[end..] == GroupText(rest)
    requires rest != [] ==> rest[0].Embed?
    requires EmbedsFrom(value, end, end) == rest
    ensures EmbedsFrom(value, last, last) == [TextNode(text)] + rest
  {
    if rest == [] {
      assert value == value[..end];
      NoEmbedBefore(value, last, end);
      ScanPast(value, last, last, end);
    } else {
      EmbedAtFront(value, end, end + |rest[0].value| + 5, rest[0].value, GroupText(rest[1..]));
      assert value[end] == value[end..][0] == '!' && value[end + 1] == value[end..][1] == '[';
      NoEmbedBefore(value, last, end);
      ScanPast(value, last, last, end);
      LiteralFirst(value, last, end);
    }
  }

  lemma {:induction false} GroupReturns(nodes: seq<Phrasing>, open: Styles, inLink: bool)
    requires nodes != [] && AllLeaves(nodes) && Canonical(nodes, open, inLink)
    ensures TextOrEmbeds(GroupText(nodes)) == nodes
    ensures '\n' !in GroupText(nodes) && (GroupText(nodes) == "" ==> nodes == [TextNode("")])
  {
    assert nodes == [nodes[0]] + nodes[1..];
    if |nodes| == 1 && nodes[0].TextNode? {
      assert GroupText(nodes) == nodes[0].value;
    } else {
      LeavesAreGroup(nodes, open, inLink);
      GroupClean(nodes);
      GroupScans(GroupText(nodes), 0, nodes);
      GroupHasEmbed(GroupText(nodes), nodes);
    }
  }

  lemma {:induction false} GroupClean(nodes: seq<Phrasing>)
    requires Group(nodes) && AllLeaves(nodes)
    ensures '\n' !in GroupText(nodes)
    decreases |nodes|
  {
    if nodes != [] {
      GroupClean(nodes[1..]);
      if nodes[0].Embed? { EmbedTextClean(nodes[0].value); }
    }
  }

  lemma EmbedTextClean(name: string)
    requires EmbedName(name)
    ensures '\n' !in EmbedText(name)
  {
    assert forall i :: 0 <= i < |name| ==> !Bracket(name[i]) && name[i] != '\n';
  }

  lemma {:induction false} GroupHasEmbed(value: string, nodes: seq<Phrasing>)
    requires Group(nodes) && AllLeaves(nodes) && value == GroupText(nodes)
    requires nodes != [] && (|nodes| == 1 ==> nodes[0].Embed?)
    ensures HasEmbed(value)
  {
    if nodes[0].Embed? {
      assert value[0..] == value;
      EmbedAtFront(value, 0, |nodes[0].value| + 5, nodes[0].value, GroupText(nodes[1..]));
    } else {
      var text, rest := nodes[0].value, nodes[1..];
      assert value[0..] == value;
      TextSplits(value, 0, |text|, text, GroupText(rest));
      EmbedAtFront(value, |text|, |text| + |rest[0].value| + 5, rest[0].value, GroupText(rest[1..]));
    }
  }

  // ----- the atoms of a tree -----

  function Dress(atoms: seq<Atom>, style: Style): (dressed: seq<Atom>)
    ensures |dressed| == |atoms|
    ensures forall i :: 0 <= i < |atoms| ==> dressed[i] == DressAtom(atoms[i], style)
  {
    if atoms == [] then [] else [DressAtom(atoms[0], style)] + Dress(atoms[1..], style)
  }

  function DressAtom(atom: Atom, style: Style): Atom {
    if IsText(atom) then Item(Text(atom.item.text, atom.item.styles.With(style))) else atom
  }

  function NodeAtoms(node: Phrasing): seq<Atom>
    decreases node, 0
  {
    match node
    case Break => [HardBreak]
    case InlineCode(value) => [Item(Text(value, Plain.With(Code)))]
    case Strong(children) => Dress(AtomsOf(children), Bold)
    case Emphasis(children) => Dress(AtomsOf(children), Italic)
    case Delete(children) => Dress(AtomsOf(children), Strike)
    case LinkNode(url, _, children) =>
      var content := ToInline(children);
      if content.Some? then [Item(Link(url, content.value))] else []
    case WikiNode(value, data) => [Item(WikiLink(value, WikiAlias(value, data)))]
    case _ => []
  }

  /** The atoms a canonical tree is built from: a group of texts and embeds is one text. */
  function AtomsOf(nodes: seq<Phrasing>): seq<Atom>
    decreases nodes, 1
  {
    if nodes == [] then []
    else if Leaf(nodes[0]) then
      var n := LeafCount(nodes);
      [Item(Text(GroupText(nodes[..n]), Plain))] + AtomsOf(nodes[n..])
    else NodeAtoms(nodes[0]) + AtomsOf(nodes[1..])
  }

  // ----- building from the atoms of a canonical tree -----

  predicate Sound(atoms: seq<Atom>, open: Styles, inLink: bool) {
    TypedAtoms(atoms) && Ready(atoms) && LinksStable(atoms) && AllPlaced(atoms, open, inLink)
  }

  /** `atom` is the first atom of `node`. */
  predicate Opens(node: Phrasing, atom: Atom) {
    && StylesOf(atom) == Lead(node)
    && (IsText(atom) && atom.item.styles == Plain ==> Leaf(node))
    && (IsText(atom) && atom.item.styles == Plain.With(Code) ==> node.InlineCode?)
    && (atom == Item(Text("", Plain)) ==> node == TextNode(""))
    && (atom.HardBreak? ==> node.Break?)
  }

  /** The atoms of one turn: the loop in `build` takes them all at once and makes `head`. */
  predicate OneTurn(first: seq<Atom>, head: seq<Phrasing>) {
    TypedAtoms(first) && first != [] && HeadLength(first) == |first| && Build(first) == head
  }

  /** `later` neither continues the wrapper of the turn nor sticks to its last atom. */
  predicate Closes(first: seq<Atom>, later: seq<Atom>)
    requires first != []
  {
    later != [] ==>
      !Near(first[|first| - 1], later[0]) &&
      (Wraps(first[0]) ==> !StylesOf(later[0]).Has(first[0].item.styles.Active()[0]))
  }

  lemma SoundJoin(first: seq<Atom>, later: seq<Atom>, open: Styles, inLink: bool)
    requires Sound(first, open, inLink) && Sound(later, open, inLink)
    requires first != [] && later != [] ==> !Near(first[|first| - 1], later[0])
    ensures Sound(first + later, open, inLink)
  {
    var atoms := first + later;
    forall i | 0 <= i < |atoms| - 1 ensures Far(atoms, i) {
      if i + 1 < |first| { assert Far(first, i); } else if i >= |first| { assert Far(later, i - |first|); }
    }
  }

  lemma {:induction false} TurnJoin(first: seq<Atom>, later: seq<Atom>, head: seq<Phrasing>)
    requires TypedAtoms(first + later) && OneTurn(first, head) && TypedAtoms(later) && Closes(first, later)
    ensures Build(first + later) == head + Build(later)
  {
    var atoms := first + later;
    TurnEnds(first, later);
    assert atoms[|first|..] == later && atoms[..|first|] == first;
    assert first[..|first|] == first && first[|first|..] == [];
    assert Build(first) == BuildHead(first) + [];
    assert BuildHead(atoms) == BuildHead(first);
  }

  lemma {:induction false} TurnEnds(first: seq<Atom>, later: seq<Atom>)
    requires first != [] && HeadLength(first) == |first| && Closes(first, later)
    ensures HeadLength(first + later) == |first|
  {
    if Wraps(first[0]) {
      var outer := first[0].item.styles.Active()[0];
      RunEnds(first, later, outer);
    }
  }

  lemma {:induction false} RunEnds(first: seq<Atom>, later: seq<Atom>, style: Style)
    requires RunLength(first, style) == |first|
    requires later != [] ==> !StylesOf(later[0]).Has(style)
    ensures RunLength(first + later, style) == |first|
  {
    assert forall i :: 0 <= i < |first| ==> (first + later)[i] == first[i];
    assert later != [] ==> (first + later)[|first|] == later[0];
  }

  lemma {:induction false} DressSound(inner: seq<Atom>, first: seq<Atom>, style: Style, open: Styles, inLink: bool)
    requires first == Dress(inner, style) && style != Code && !open.Has(style)
    requires Sound(inner, open.With(style), inLink)
    requires forall i :: 0 <= i < |inner| ==> IsText(inner[i]) && !inner[i].item.styles.Has(style)
    ensures Sound(first, open, inLink)
  {
    forall i | 0 <= i < |first| ensures Placed(first[i], open, inLink) {
      assert Placed(inner[i], open.With(style), inLink);
    }
    forall i | 0 <= i < |first| - 1 ensures Far(first, i) {
      assert Far(inner, i);
    }
  }

  lemma {:induction false} Undress(inner: seq<Atom>, first: seq<Atom>, style: Style)
    requires first == Dress(inner, style)
    requires forall i :: 0 <= i < |inner| ==> IsText(inner[i]) && !inner[i].item.styles.Has(style)
    ensures Peel(first, style) == inner
  {}

  lemma PlainSound(text: string, open: Styles, inLink: bool)
    requires '\n' !in text
    ensures Sound([Item(Text(text, Plain))], open, inLink)
  {}

  lemma {:induction false} PlainTurn(text: string)
    ensures OneTurn([Item(Text(text, Plain))], TextOrEmbeds(text))
  {
    assert Plain.Active() == [];
    LoneTurn(Item(Text(text, Plain)));
  }

  lemma PlainOpens(node: Phrasing, text: string)
    requires Leaf(node) && (text == "" ==> node == TextNode(""))
    ensures Opens(node, Item(Text(text, Plain))) && LeavesBehind(node, [Item(Text(text, Plain))])
  {
    assert Plain.Active() == [];
  }

  /** An atom that opens no wrapper is a turn of its own. */
  lemma {:induction false} LoneTurn(atom: Atom)
    requires TypedAtoms([atom]) && !Wraps(atom)
    ensures OneTurn([atom], BuildHead([atom]))
  {
    assert [atom][1..] == [];
    assert Build([atom]) == BuildHead([atom]) + [];
  }

  /** What a node leaves at the end of its atoms. */
  predicate LeavesBehind(node: Phrasing, first: seq<Atom>) {
    first != [] &&
    var last := first[|first| - 1];
    if Leaf(node) then
      !Wraps(first[0]) && IsText(last) && last.item.styles == Plain && (last.item.text == "" ==> node == TextNode(""))
    else if node.Break? then !Wraps(first[0]) && last.HardBreak?
    else if node.InlineCode? then !Wraps(first[0]) && IsText(last) && last.item.styles == Plain.With(Code)
    else if WrapperOf(node).Some? then
      var style := WrapperOf(node).value;
      Wraps(first[0]) && first[0].item.styles.Active()[0] == style && IsText(last) && last.item.styles.Has(style)
    else !Wraps(first[0]) && !IsText(last) && !last.HardBreak?
  }

  lemma Seam(node: Phrasing, first: seq<Atom>, next: Phrasing, later: seq<Atom>)
    requires LeavesBehind(node, first) && Fits(node, next) && (Leaf(node) ==> !Leaf(next))
    requires later != [] && Opens(next, later[0])
    ensures Closes(first, later)
  {}

  // ----- the flat form in between -----

  predicate ComesBack(nodes: seq<Phrasing>) {
    ToInline(nodes).Some? && WellTyped(ToInline(nodes).value) && FromInline(ToInline(nodes).value) == nodes
  }

  /** What a tree is built from is what its flat form splits into. */
  lemma {:induction false} AtomsReturn(nodes: seq<Phrasing>, atoms: seq<Atom>, inLink: bool)
    requires Sound(atoms, Plain, inLink) && Build(atoms) == nodes
    ensures ComesBack(nodes) && SplitBreaks(ToInline(nodes).value) == NormalAtoms(atoms)
    ensures Textual(atoms) ==> TextOnly(ToInline(nodes).value)
  {
    BuildReads(atoms, Plain, []);
    var items := PushAll([], AtomRuns(atoms, Plain));
    assert ToInline(nodes) == Some(items);
    PushAllSplits([], atoms);
    RunsTyped(atoms);
    PushTyped([], AtomRuns(atoms, Plain));
    SplitBuilds(items, atoms);
    if Textual(atoms) { PushTextOnly([], AtomRuns(atoms, Plain)); }
  }

  lemma {:induction false} SplitBuilds(items: seq<Inline>, atoms: seq<Atom>)
    requires WellTyped(items) && TypedAtoms(atoms) && LinksStable(atoms)
    requires SplitBreaks(items) == NormalAtoms(atoms)
    ensures FromInline(items) == Build(atoms)
  {
    SplitTyped(items);
    BuildOfNormal(atoms);
  }

  lemma {:induction false} RunsTyped(atoms: seq<Atom>)
    requires TypedAtoms(atoms) && LinksStable(atoms)
    ensures WellTyped(AtomRuns(atoms, Plain)) && TypedAtoms(NormalAtoms(atoms))
  {}

  /** The content of a link whose children come back is in normal form. */
  lemma {:induction false} ContentReturns(children: seq<Phrasing>, content: seq<Inline>, atoms: seq<Atom>)
    requires Sound(atoms, Plain, true) && Build(atoms) == children
    requires ComesBack(children) && content == ToInline(children).value
    ensures TextOnly(content) && TextOnly(Normal(content)) && SplitBreaks(Normal(content)) == SplitBreaks(content)
    ensures Loose(SplitBreaks(content)) && FromInline(content) == children
  {
    assert Textual(atoms) by {
      forall i | 0 <= i < |atoms| ensures atoms[i].HardBreak? || atoms[i].item.Text? {
        assert Placed(atoms[i], Plain, true);
      }
    }
    AtomsReturn(children, atoms, true);
    TextAtomsUnchanged(atoms);
    RoundTrip(content);
  }

  lemma {:induction false} LinkTurn(node: Phrasing, atoms: seq<Atom>, open: Styles, inLink: bool)
    requires node.LinkNode? && CanonicalNode(node, open, inLink)
    requires Sound(atoms, Plain, true) && Build(atoms) == node.children
    ensures Turn(NodeAtoms(node), [node], open, inLink)
  {
    AtomsReturn(node.children, atoms, true);
    var content := ToInline(node.children).value;
    ContentReturns(node.children, content, atoms);
    LoneTurn(Item(Link(node.url, content)));
  }

  /** The nodes one turn of the loop in `build` makes. */
  function TurnNodes(nodes: seq<Phrasing>): (n: nat)
    requires nodes != []
    ensures 1 <= n <= |nodes|
  {
    if Leaf(nodes[0]) then LeafCount(nodes) else 1
  }

  function TurnAtoms(nodes: seq<Phrasing>): seq<Atom>
    requires nodes != []
    ensures AtomsOf(nodes) == TurnAtoms(nodes) + AtomsOf(nodes[TurnNodes(nodes)..])
  {
    if Leaf(nodes[0]) then [Item(Text(GroupText(nodes[..LeafCount(nodes)]), Plain))] else NodeAtoms(nodes[0])
  }

  /** `first` are the atoms of one turn, `head` the nodes it makes. */
  predicate Turn(first: seq<Atom>, head: seq<Phrasing>, open: Styles, inLink: bool) {
    && head != [] && Sound(first, open, inLink) && OneTurn(first, head)
    && Opens(head[0], first[0]) && LeavesBehind(head[|head| - 1], first)
  }

  predicate Rebuilds(atoms: seq<Atom>, nodes: seq<Phrasing>, open: Styles, inLink: bool) {
    && Sound(atoms, open, inLink) && Build(atoms) == nodes && (atoms == [] <==> nodes == [])
    && (nodes != [] ==> Opens(nodes[0], atoms[0]))
  }

  lemma {:induction false} WrapperTurn(style: Style, children: seq<Phrasing>, inner: seq<Atom>, open: Styles,
      inLink: bool)
    requires style != Code && CanonicalWrapper(style, children, open, inLink)
    requires Rebuilds(inner, children, open.With(style), inLink)
    ensures Turn(Dress(inner, style), [Wrapper(style, children)], open, inLink)
  {
    var first := Dress(inner, style);
    InnerTexts(inner, style, open, inLink);
    DressSound(inner, first, style, open, inLink);
    Undress(inner, first, style);
    DressOpens(style, children, inner, first);
    DressTurns(style, children, inner, first);
  }

  lemma InnerTexts(inner: seq<Atom>, style: Style, open: Styles, inLink: bool)
    requires style != Code && AllPlaced(inner, open.With(style), inLink)
    ensures forall i :: 0 <= i < |inner| ==> IsText(inner[i]) && !inner[i].item.styles.Has(style)
  {
    assert open.With(style) != Plain;
    assert forall i :: 0 <= i < |inner| ==> Placed(inner[i], open.With(style), inLink);
  }

  lemma {:induction false} DressOpens(style: Style, children: seq<Phrasing>, inner: seq<Atom>, first: seq<Atom>)
    requires style != Code && inner != [] && children != [] && Opens(children[0], inner[0])
    requires first == Dress(inner, style) && forall i :: 0 <= i < |inner| ==> IsText(inner[i])
    requires !inner[0].item.styles.Has(style) && Outermost(style, LeadOf(children))
    ensures first != [] && Wraps(first[0]) && first[0].item.styles.Active()[0] == style
    ensures Opens(Wrapper(style, children), first[0]) && LeavesBehind(Wrapper(style, children), first)
  {
    assert first[0].item.styles == LeadOf(children).With(style);
    assert IsText(inner[|inner| - 1]);
  }

  lemma {:induction false} DressTurns(style: Style, children: seq<Phrasing>, inner: seq<Atom>, first: seq<Atom>)
    requires style != Code && inner != [] && TypedAtoms(inner) && Build(inner) == children && TypedAtoms(first)
    requires first != [] && Wraps(first[0]) && first[0].item.styles.Active()[0] == style
    requires forall i :: 0 <= i < |first| ==> first[i].Item? && first[i].item.Text? && first[i].item.styles.Has(style)
    requires Peel(first, style) == inner
    ensures OneTurn(first, [Wrapper(style, children)])
  {
    assert RunLength(first, style) == |first|;
    assert first[..|first|] == first && first[|first|..] == [];
    assert HeadInner(first) == inner;
    HeadIsWrapper(first);
  }

  lemma {:induction false} CanonicalRebuilds(nodes: seq<Phrasing>, open: Styles, inLink: bool)
    requires Canonical(nodes, open, inLink)
    ensures Rebuilds(AtomsOf(nodes), nodes, open, inLink)
    decreases nodes, 1
  {
    if nodes != [] {
      var n := TurnNodes(nodes);
      var head, rest := nodes[..n], nodes[n..];
      CanonicalRest(nodes, n, open, inLink);
      CanonicalTurn(nodes, head, TurnAtoms(nodes), open, inLink);
      CanonicalRebuilds(rest, open, inLink);
      TurnEndsThere(nodes, n, head, rest, open, inLink);
      TurnThenRest(nodes, head, rest, TurnAtoms(nodes), AtomsOf(rest), open, inLink);
    }
  }

  /** A turn takes all the leaves of a group. */
  lemma {:induction false} TurnEndsThere(
    nodes: seq<Phrasing>, n: nat, head: seq<Phrasing>, rest: seq<Phrasing>, open: Styles, inLink: bool)
    requires nodes != [] && n == TurnNodes(nodes) && head == nodes[..n] && rest == nodes[n..]
    requires Canonical(nodes, open, inLink)
    ensures nodes == head + rest
    ensures rest != [] ==> Fits(head[|head| - 1], rest[0]) && (Leaf(head[|head| - 1]) ==> !Leaf(rest[0]))
  {
    if rest != [] { NeighboursFit(nodes, n - 1, open, inLink); }
  }

  lemma {:induction false} TurnThenRest(
    nodes: seq<Phrasing>, head: seq<Phrasing>, rest: seq<Phrasing>, first: seq<Atom>, later: seq<Atom>,
    open: Styles, inLink: bool)
    requires Turn(first, head, open, inLink) && Rebuilds(later, rest, open, inLink) && nodes == head + rest
    requires rest != [] ==> Fits(head[|head| - 1], rest[0]) && (Leaf(head[|head| - 1]) ==> !Leaf(rest[0]))
    ensures Rebuilds(first + later, nodes, open, inLink)
  {
    if rest != [] { Seam(head[|head| - 1], first, rest[0], later); }
    SoundJoin(first, later, open, inLink);
    TurnJoin(first, later, head);
  }

  lemma {:induction false} NeighboursFit(nodes: seq<Phrasing>, i: nat, open: Styles, inLink: bool)
    requires Canonical(nodes, open, inLink) && i + 1 < |nodes|
    ensures Fits(nodes[i], nodes[i + 1])
  {
    if i > 0 { NeighboursFit(nodes[1..], i - 1, open, inLink); }
  }

  lemma {:induction false} CanonicalTurn(
    nodes: seq<Phrasing>, head: seq<Phrasing>, first: seq<Atom>, open: Styles, inLink: bool)
    requires nodes != [] && Canonical(nodes, open, inLink)
    requires head == nodes[..TurnNodes(nodes)] && first == TurnAtoms(nodes)
    ensures Turn(first, head, open, inLink)
    decreases nodes, 0
  {
    var node := nodes[0];
    if Leaf(node) {
      CanonicalPrefix(nodes, LeafCount(nodes), open, inLink);
      LeafTurn(head, first, open, inLink);
    } else {
      assert head == [node] && first == NodeAtoms(node) && CanonicalNode(node, open, inLink);
      if WrapperOf(node).Some? {
        var style, children := WrapperOf(node).value, node.children;
        assert CanonicalWrapper(style, children, open, inLink);
        CanonicalRebuilds(children, open.With(style), inLink);
        WrapperTurn(style, children, AtomsOf(children), open, inLink);
      } else if node.LinkNode? {
        CanonicalRebuilds(node.children, Plain, true);
        LinkTurn(node, AtomsOf(node.children), open, inLink);
      } else {
        OtherTurn(node, open, inLink);
      }
    }
  }

  lemma {:induction false} CanonicalPrefix(nodes: seq<Phrasing>, n: nat, open: Styles, inLink: bool)
    requires Canonical(nodes, open, inLink) && n <= |nodes|
    ensures Canonical(nodes[..n], open, inLink)
    decreases n
  {
    if n > 0 {
      CanonicalPrefix(nodes[1..], n - 1, open, inLink);
      assert nodes[..n][1..] == nodes[1..][..n - 1];
    }
  }

  lemma {:induction false} LeafTurn(head: seq<Phrasing>, first: seq<Atom>, open: Styles, inLink: bool)
    requires head != [] && AllLeaves(head) && Canonical(head, open, inLink)
    requires first == [Item(Text(GroupText(head), Plain))]
    ensures Turn(first, head, open, inLink)
  {
    GroupReturns(head, open, inLink);
    PlainSound(GroupText(head), open, inLink);
    PlainTurn(GroupText(head));
    PlainOpens(head[0], GroupText(head));
    PlainOpens(head[|head| - 1], GroupText(head));
  }

  lemma {:induction false} OtherTurn(node: Phrasing, open: Styles, inLink: bool)
    requires CanonicalNode(node, open, inLink)
    requires node.Break? || node.InlineCode? || node.WikiNode?
    ensures Turn(NodeAtoms(node), [node], open, inLink)
  {
    LoneTurn(NodeAtoms(node)[0]);
  }

  // ----- the exact condition -----

  /** Trees that come back from the flat form as they were. */
  predicate Stable(nodes: seq<Phrasing>) {
    Canonical(nodes, Plain, false)
  }

  /** A tree comes back from its flat form exactly when it is stable. */
  lemma {:induction false} StableExactly(nodes: seq<Phrasing>)
    ensures ComesBack(nodes) <==> Stable(nodes)
  {
    if Stable(nodes) {
      CanonicalRebuilds(nodes, Plain, false);
      AtomsReturn(nodes, AtomsOf(nodes), false);
    }
    if ComesBack(nodes) {
      var items := ToInline(nodes).value;
      RoundTrip(items);
      FixedIsReady(items);
      SplitTyped(items);
      BuildCanonical(SplitBreaks(items), Plain, false);
    }
  }

  /** Items in normal form split into atoms that stay apart, in links too. */
  lemma {:induction false} FixedIsReady(items: seq<Inline>)
    requires WellTyped(items) && Normal(items) == items
    ensures Ready(SplitBreaks(items))
  {
    var atoms := SplitBreaks(items);
    SplitOfNormal(items);
    SplitNoNewlines(items);
    SplitTyped(items);
    forall i | 0 <= i < |atoms| ensures LooseLink(atoms[i]) {
      if atoms[i].Item? && atoms[i].item.Link? {
        var content := atoms[i].item.content;
        assert NormalAtoms(atoms)[i] == NormalAtom(atoms[i]);
        assert Normal(content) == content;
        SplitOfNormal(content);
        SplitNoNewlines(content);
      }
    }
  }
}
