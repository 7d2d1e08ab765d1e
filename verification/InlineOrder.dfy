/** The order of wrappers in rebuilt trees: strike around italic around bold, exactly when no text
    opens a style before one it shares with the text in front of it. */
module InlineOrder {
  import opened Common
  import opened Inline
  import opened InlineProofs
  import opened InlineShape
  import opened InlineStable

  // ----- the order, in the tree and in the items -----

  function Rank(style: Style): nat {
    match style
    case Strike => 0
    case Italic => 1
    case Bold => 2
    case Code => 3
  }

  predicate NodeInOrder(node: Phrasing, floor: nat)
    decreases node
  {
    match node
    case Strong(children) => floor <= Rank(Bold) && InOrder(children, Rank(Bold) + 1)
    case Emphasis(children) => floor <= Rank(Italic) && InOrder(children, Rank(Italic) + 1)
    case Delete(children) => floor <= Rank(Strike) && InOrder(children, Rank(Strike) + 1)
    case LinkNode(_, _, children) => InOrder(children, 0)
    case _ => true
  }

  /** Every wrapper stands only inside wrappers that come before it in the order, at any depth;
      a link starts anew. */
  predicate InOrder(nodes: seq<Phrasing>, floor: nat)
    decreases nodes
  {
    nodes == [] || (NodeInOrder(nodes[0], floor) && InOrder(nodes[1..], floor))
  }

  /** A text styled `b` after one styled `a` opens a style that comes before one whose wrapper
      stays open. */
  predicate Overtakes(a: Styles, b: Styles) {
    || (!a.strike && b.strike && a.italic && b.italic)
    || (!a.strike && b.strike && a.bold && b.bold && (a.italic ==> b.italic))
    || (!a.italic && b.italic && a.bold && b.bold && (a.strike ==> b.strike))
  }

  predicate InStep(atoms: seq<Atom>, i: nat)
    requires i + 1 < |atoms|
  {
    IsText(atoms[i]) && IsText(atoms[i + 1]) ==> !Overtakes(atoms[i].item.styles, atoms[i + 1].item.styles)
  }

  predicate AllInStep(atoms: seq<Atom>) {
    forall i :: 0 <= i < |atoms| - 1 ==> InStep(atoms, i)
  }

  predicate LinkInStep(atom: Atom) {
    atom.Item? && atom.item.Link? ==> AllInStep(SplitBreaks(atom.item.content))
  }

  predicate LinksInStep(atoms: seq<Atom>) {
    forall i :: 0 <= i < |atoms| ==> LinkInStep(atoms[i])
  }

  // ----- building keeps the order exactly then -----

  predicate From(styles: Styles, floor: nat) {
    (styles.strike ==> floor <= Rank(Strike)) && (styles.italic ==> floor <= Rank(Italic)) &&
    (styles.bold ==> floor <= Rank(Bold))
  }

  /** No atom has a style that comes before `floor`. */
  predicate AllFrom(atoms: seq<Atom>, floor: nat) {
    forall i :: 0 <= i < |atoms| && IsText(atoms[i]) ==> From(atoms[i].item.styles, floor)
  }

  predicate Ordered(atoms: seq<Atom>, floor: nat) {
    AllFrom(atoms, floor) && AllInStep(atoms) && LinksInStep(atoms)
  }

  lemma {:induction false} InOrderSplit(a: seq<Phrasing>, b: seq<Phrasing>, floor: nat)
    ensures InOrder(a + b, floor) <==> InOrder(a, floor) && InOrder(b, floor)
    decreases |a|
  {
    if a == [] {
      assert a + b == b;
    } else {
      assert (a + b)[1..] == a[1..] + b;
      InOrderSplit(a[1..], b, floor);
    }
  }

  lemma {:induction false} InOrderOne(node: Phrasing, floor: nat)
    ensures InOrder([node], floor) <==> NodeInOrder(node, floor)
  {
    assert [node][1..] == [];
    assert InOrder([], floor);
  }

  lemma OrderedSplit(first: seq<Atom>, later: seq<Atom>, atoms: seq<Atom>, floor: nat)
    requires atoms == first + later
    ensures Ordered(atoms, floor) <==>
      Ordered(first, floor) && Ordered(later, floor) &&
      (first != [] && later != [] ==> InStep(atoms, |first| - 1))
  {
    forall i | 0 <= i < |first| - 1 ensures InStep(atoms, i) <==> InStep(first, i) {}
    forall i | 0 <= i < |later| - 1 ensures InStep(atoms, |first| + i) <==> InStep(later, i) {}
    forall i | 0 <= i < |first| ensures atoms[i] == first[i] {}
    forall i | 0 <= i < |later| ensures atoms[|first| + i] == later[i] {}
    if Ordered(first, floor) && Ordered(later, floor) && (first != [] && later != [] ==> InStep(atoms, |first| - 1)) {
      forall i | 0 <= i < |atoms| - 1 ensures InStep(atoms, i) {
        if i >= |first| { assert InStep(later, i - |first|); } else if i < |first| - 1 { assert InStep(first, i); }
      }
    }
  }

  predicate Run(first: seq<Atom>, style: Style) {
    forall i :: 0 <= i < |first| ==> first[i].Item? && first[i].item.Text? && first[i].item.styles.Has(style)
  }

  lemma StepPeel(a: Styles, b: Styles, style: Style)
    requires style != Code && a.Has(style) && b.Has(style) && From(a, Rank(style)) && From(b, Rank(style))
    ensures Overtakes(a, b) <==> Overtakes(a.Without(style), b.Without(style))
  {}

  /** In a run that keeps step no text has a style before the one the run opens with. */
  lemma {:induction false} NoneEarlier(first: seq<Atom>, style: Style, k: nat)
    requires style != Code && Run(first, style) && AllInStep(first) && k < |first|
    requires From(first[0].item.styles, Rank(style))
    ensures From(first[k].item.styles, Rank(style))
  {
    if k > 0 {
      NoneEarlier(first, style, k - 1);
      assert InStep(first, k - 1);
    }
  }

  /** The run is ordered just when what its wrapper holds is. */
  lemma {:induction false} RunOrdered(first: seq<Atom>, style: Style, inner: seq<Atom>, floor: nat)
    requires style != Code && first != [] && Run(first, style) && inner == Peel(first, style)
    requires From(first[0].item.styles, Rank(style))
    ensures Ordered(first, floor) <==> floor <= Rank(style) && Ordered(inner, Rank(style) + 1)
    ensures Ordered(first, floor) ==> AllFrom(first, Rank(style))
  {
    if AllInStep(first) {
      forall k | 0 <= k < |first| ensures From(first[k].item.styles, Rank(style)) {
        NoneEarlier(first, style, k);
      }
    }
    if AllFrom(first, Rank(style)) { RunInStep(first, style, inner); }
    forall k | 0 <= k < |first|
      ensures From(inner[k].item.styles, Rank(style) + 1) <==> From(first[k].item.styles, Rank(style))
    {}
  }

  lemma {:induction false} RunInStep(first: seq<Atom>, style: Style, inner: seq<Atom>)
    requires style != Code && Run(first, style) && inner == Peel(first, style) && AllFrom(first, Rank(style))
    ensures AllInStep(first) <==> AllInStep(inner)
  {
    forall i | 0 <= i < |first| - 1 ensures InStep(first, i) <==> InStep(inner, i) {
      StepPeel(first[i].item.styles, first[i + 1].item.styles, style);
    }
    if AllInStep(first) {
      forall i | 0 <= i < |inner| - 1 ensures InStep(inner, i) { assert InStep(first, i); }
    }
    if AllInStep(inner) {
      forall i | 0 <= i < |first| - 1 ensures InStep(first, i) { assert InStep(inner, i); }
    }
  }

  lemma {:induction false} BuildOrdered(atoms: seq<Atom>, floor: nat)
    requires TypedAtoms(atoms)
    ensures InOrder(Build(atoms), floor) <==> Ordered(atoms, floor)
    decreases LinkRank(atoms), StyleTotal(atoms), |atoms|, 1
  {
    if atoms != [] {
      var n := HeadLength(atoms);
      var first, later := atoms[..n], atoms[n..];
      Halves(atoms, n);
      HeadOrdered(atoms, first, floor);
      RestSmaller(atoms, n);
      BuildOrdered(later, floor);
      InOrderSplit(BuildHead(atoms), Build(later), floor);
      OrderedSplit(first, later, atoms, floor);
    }
  }

  lemma {:induction false} HeadOrdered(atoms: seq<Atom>, first: seq<Atom>, floor: nat)
    requires TypedAtoms(atoms) && atoms != [] && first == atoms[..HeadLength(atoms)]
    ensures InOrder(BuildHead(atoms), floor) <==> Ordered(first, floor)
    ensures Ordered(first, floor) && |first| < |atoms| ==> InStep(atoms, |first| - 1)
    decreases LinkRank(atoms), StyleTotal(atoms), |atoms|, 0
  {
    if Wraps(atoms[0]) {
      var outer := atoms[0].item.styles.Active()[0];
      HeadInnerSmaller(atoms);
      BuildOrdered(HeadInner(atoms), Rank(outer) + 1);
      WrapperOrdered(atoms, first, outer, HeadInner(atoms), floor);
    } else {
      if atoms[0].Item? && atoms[0].item.Link? {
        var content := atoms[0].item.content;
        SplitTextOnly(content);
        BuildOrdered(SplitBreaks(content), 0);
      }
      LeafOrdered(atoms, BuildHead(atoms), floor);
      assert first == [atoms[0]];
    }
  }

  lemma {:induction false} WrapperInOrder(style: Style, children: seq<Phrasing>, floor: nat)
    requires style != Code
    ensures NodeInOrder(Wrapper(style, children), floor) <==> floor <= Rank(style) && InOrder(children, Rank(style) + 1)
  {}

  lemma {:induction false} WrapperOrdered(
    atoms: seq<Atom>, first: seq<Atom>, outer: Style, inner: seq<Atom>, floor: nat)
    requires TypedAtoms(atoms) && atoms != [] && Wraps(atoms[0]) && first == atoms[..HeadLength(atoms)]
    requires outer == atoms[0].item.styles.Active()[0] && inner == HeadInner(atoms)
    requires InOrder(Build(inner), Rank(outer) + 1) <==> Ordered(inner, Rank(outer) + 1)
    ensures InOrder(BuildHead(atoms), floor) <==> Ordered(first, floor)
    ensures Ordered(first, floor) && |first| < |atoms| ==> InStep(atoms, |first| - 1)
  {
    HeadIsWrapper(atoms);
    InOrderOne(Wrapper(outer, Build(inner)), floor);
    WrapperInOrder(outer, Build(inner), floor);
    RunOrdered(first, outer, inner, floor);
    if Ordered(first, floor) && |first| < |atoms| && IsText(atoms[|first|]) {
      var last := first[|first| - 1];
      assert From(last.item.styles, Rank(outer)) && last.item.styles.Has(outer);
    }
  }

  lemma {:induction false} LeafOrdered(atoms: seq<Atom>, head: seq<Phrasing>, floor: nat)
    requires TypedAtoms(atoms) && atoms != [] && !Wraps(atoms[0]) && head == BuildHead(atoms)
    requires atoms[0].Item? && atoms[0].item.Link? ==>
      (InOrder(FromInline(atoms[0].item.content), 0) <==> Ordered(SplitBreaks(atoms[0].item.content), 0))
    ensures InOrder(head, floor) <==> Ordered([atoms[0]], floor)
    ensures |atoms| > 1 ==> InStep(atoms, 0)
  {
    if IsText(atoms[0]) {
      TextInOrder(atoms[0].item.text, atoms[0].item.styles, head, floor);
    } else {
      InOrderOne(head[0], floor);
      OneOrdered(atoms[0], floor);
      if atoms[0].Item? && atoms[0].item.Link? {
        LinkOrdered(atoms[0].item.content);
        assert head[0].children == FromInline(atoms[0].item.content);
      }
    }
  }

  lemma OneOrdered(atom: Atom, floor: nat)
    requires !IsText(atom)
    ensures Ordered([atom], floor) <==> LinkInStep(atom)
  {
    assert [atom][0] == atom;
  }

  /** A text without wrappers is in order, and whatever follows is in step with it. */
  lemma {:induction false} TextInOrder(value: string, styles: Styles, head: seq<Phrasing>, floor: nat)
    requires styles.Active() == [] || styles.Active()[0] == Code
    requires head == if styles.Active() == [] then TextOrEmbeds(value) else [InlineCode(value)]
    ensures InOrder(head, floor) && Ordered([Item(Text(value, styles))], floor)
    ensures forall later: Styles :: !Overtakes(styles, later)
  {
    if styles.Active() == [] {
      TextOrEmbedsShape(value, Plain);
      LeavesInOrder(head, floor);
    } else {
      InOrderOne(InlineCode(value), floor);
    }
  }

  lemma {:induction false} LeavesInOrder(nodes: seq<Phrasing>, floor: nat)
    requires Leaves(nodes)
    ensures InOrder(nodes, floor)
    decreases |nodes|
  {
    if nodes != [] {
      assert NodeInOrder(nodes[0], floor);
      LeavesInOrder(nodes[1..], floor);
    }
  }

  lemma {:induction false} LinkOrdered(content: seq<Inline>)
    requires TextOnly(content)
    ensures Ordered(SplitBreaks(content), 0) <==> AllInStep(SplitBreaks(content))
  {
    SplitTextOnly(content);
  }

  /** A rebuilt tree keeps the order exactly when its texts keep step, in links too. */
  lemma {:induction false} OrderExactly(items: seq<Inline>)
    requires WellTyped(items)
    ensures InOrder(FromInline(items), 0) <==> AllInStep(SplitBreaks(items)) && LinksInStep(SplitBreaks(items))
  {
    SplitTyped(items);
    BuildOrdered(SplitBreaks(items), 0);
  }

  lemma {:induction false} PlainBuilds(text: string, rest: seq<Atom>)
    requires TypedAtoms(rest)
    ensures Build([Item(Text(text, Plain))] + rest) == TextOrEmbeds(text) + Build(rest)
  {
    var atoms := [Item(Text(text, Plain))] + rest;
    assert Plain.Active() == [] && atoms[1..] == rest;
  }

  lemma {:induction false} WrappedBuilds(style: Style, atoms: seq<Atom>, inner: seq<Atom>)
    requires style != Code && atoms != [] && Run(atoms, style) && inner == Peel(atoms, style)
    requires atoms[0].item.styles.Active()[..1] == [style]
    ensures Build(atoms) == [Wrapper(style, Build(inner))]
  {
    assert atoms[0].item.styles.Active()[0] == atoms[0].item.styles.Active()[..1][0];
    assert HeadLength(atoms) == |atoms|;
    assert atoms[..|atoms|] == atoms && atoms[|atoms|..] == [];
    HeadIsWrapper(atoms);
    BuildUnfold(atoms);
  }

  lemma SplitsToItself(first: Inline, second: Inline)
    requires first.Text? && second.Text? && '\n' !in first.text && '\n' !in second.text
    ensures SplitBreaks([first, second]) == [Item(first), Item(second)]
  {
    SplitBreaksOne(first);
    SplitBreaksOne(second);
    SplitBreaksAppend([first], [second]);
    assert [first] + [second] == [first, second];
  }

  /** An italic text before one that is struck through as well: strike ends up inside italic. */
  lemma {:induction false} StrikeInsideItalic(a: string, b: string)
    requires '\n' !in a && '\n' !in b
    ensures var items := [Text(a, Plain.With(Italic)), Text(b, Plain.With(Italic).With(Strike))];
      && FromInline(items) == [Emphasis(TextOrEmbeds(a) + [Delete(TextOrEmbeds(b))])]
      && !InOrder(FromInline(items), 0)
  {
    var first, second := Text(a, Plain.With(Italic)), Text(b, Plain.With(Italic).With(Strike));
    var atoms := [Item(first), Item(second)];
    SplitsToItself(first, second);
    var struck := [Item(Text(b, Plain.With(Strike)))];
    WrappedBuilds(Italic, atoms, [Item(Text(a, Plain))] + struck);
    PlainBuilds(a, struck);
    WrappedBuilds(Strike, struck, [Item(Text(b, Plain))] + []);
    PlainBuilds(b, []);
    assert TextOrEmbeds(b) + [] == TextOrEmbeds(b);
    assert !InStep(atoms, 0);
    OrderExactly([first, second]);
  }
}
