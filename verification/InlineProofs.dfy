/** The round trip of inline content: flattening a rebuilt tree gives the normal form of the items. */
module InlineProofs {
  import opened Common
  import opened Inline

  // ----- the normal form, stated without trees -----

  /** One run per character: newlines lose their styles. */
  function Cut(text: string, styles: Styles): seq<Inline> {
    if text == "" then []
    else [Text([text[0]], if text[0] == '\n' then Plain else styles)] + Cut(text[1..], styles)
  }

  function NormalItem(item: Inline): seq<Inline>
    decreases item
  {
    match item
    case Text(text, styles) => if text == "" then [item] else Cut(text, styles)
    case Link(href, content) => [Link(href, MergeText(NormalItems(content)))]
    case WikiLink(target, alias) => [WikiLink(target, if alias == target then "" else alias)]
  }

  function NormalItems(items: seq<Inline>): seq<Inline>
    decreases items
  {
    if items == [] then [] else NormalItem(items[0]) + NormalItems(items[1..])
  }

  /** Newlines split out unstyled, equal neighbours merged, links normalised inside, an alias
      that repeats its target dropped. */
  function Normal(items: seq<Inline>): seq<Inline> {
    MergeText(NormalItems(items))
  }

  // ----- merging -----

  lemma {:induction false} PushAllSplit(out: seq<Inline>, a: seq<Inline>, b: seq<Inline>)
    ensures PushAll(out, a + b) == PushAll(PushAll(out, a), b)
    decreases |a|
  {
    if a == [] {
      assert a + b == b;
    } else {
      assert (a + b)[1..] == a[1..] + b;
      PushAllSplit(Push(out, a[0]), a[1..], b);
    }
  }

  lemma {:induction false} PushAllOne(out: seq<Inline>, item: Inline)
    ensures PushAll(out, [item]) == Push(out, item)
  {
    assert [item][1..] == [];
  }

  /** Two runs of one style push like their concatenation. */
  lemma PushTwice(out: seq<Inline>, x: string, y: string, styles: Styles)
    ensures Push(Push(out, Text(x, styles)), Text(y, styles)) == Push(out, Text(x + y, styles))
  {
    var once := Push(out, Text(x, styles));
    var last := once[|once| - 1];
    assert once[..|once| - 1] == if out != [] && out[|out| - 1].Text? && out[|out| - 1].styles == styles
                                 then out[..|out| - 1] else out;
    if out != [] && out[|out| - 1].Text? && out[|out| - 1].styles == styles {
      assert out[|out| - 1].text + x + y == out[|out| - 1].text + (x + y);
    }
  }

  /** A non-empty text without newlines pushes like its characters. */
  lemma {:induction false} CutPush(out: seq<Inline>, text: string, styles: Styles)
    requires text != "" && '\n' !in text
    ensures PushAll(out, Cut(text, styles)) == Push(out, Text(text, styles))
    decreases |text|
  {
    var head := Text([text[0]], styles);
    assert Cut(text, styles) == [head] + Cut(text[1..], styles);
    PushAllSplit(out, [head], Cut(text[1..], styles));
    PushAllOne(out, head);
    assert text == [text[0]] + text[1..];
    if text[1..] != "" {
      CutPush(Push(out, head), text[1..], styles);
      PushTwice(out, [text[0]], text[1..], styles);
    } else {
      assert text == [text[0]];
    }
  }

  // ----- embeds -----

  /** Walking `nodes` succeeds and pushing the result takes `before` to `after`. */
  predicate Reads(nodes: seq<Phrasing>, styles: Styles, before: seq<Inline>, after: seq<Inline>) {
    var w := Walk(nodes, styles);
    w.Some? && PushAll(before, w.value) == after
  }

  predicate ReadsText(nodes: seq<Phrasing>, styles: Styles) {
    var w := Walk(nodes, styles);
    w.Some? && TextOnly(w.value)
  }

  lemma {:induction false} WalkSplit(a: seq<Phrasing>, b: seq<Phrasing>, styles: Styles)
    requires Walk(a, styles).Some? && Walk(b, styles).Some?
    ensures Walk(a + b, styles) == Some(Walk(a, styles).value + Walk(b, styles).value)
  {
    if a == [] {
      assert a + b == b;
      assert [] + Walk(b, styles).value == Walk(b, styles).value;
    } else {
      assert (a + b)[1..] == a[1..] + b;
      WalkSplit(a[1..], b, styles);
      var head := WalkNode(a[0], styles).value;
      assert head + (Walk(a[1..], styles).value + Walk(b, styles).value)
          == head + Walk(a[1..], styles).value + Walk(b, styles).value;
    }
  }

  lemma ReadsSplit(whole: seq<Phrasing>, a: seq<Phrasing>, b: seq<Phrasing>, styles: Styles,
                   before: seq<Inline>, middle: seq<Inline>, after: seq<Inline>)
    requires whole == a + b
    requires Reads(a, styles, before, middle) && Reads(b, styles, middle, after)
    ensures Reads(whole, styles, before, after)
    ensures ReadsText(a, styles) && ReadsText(b, styles) ==> ReadsText(whole, styles)
  {
    WalkSplit(a, b, styles);
    PushAllSplit(before, Walk(a, styles).value, Walk(b, styles).value);
  }

  lemma {:induction false} WalkOne(node: Phrasing, styles: Styles)
    ensures Walk([node], styles) == WalkNode(node, styles)
  {
    assert [node][1..] == [];
    if WalkNode(node, styles).Some? {
      assert WalkNode(node, styles).value + [] == WalkNode(node, styles).value;
    }
  }

  lemma {:induction false} ReadsRun(node: Phrasing, styles: Styles, before: seq<Inline>, run: Inline)
    requires WalkNode(node, styles) == Some([run])
    ensures Reads([node], styles, before, Push(before, run))
    ensures run.Text? ==> ReadsText([node], styles)
  {
    WalkOne(node, styles);
    PushAllOne(before, run);
  }

  /** Pushing a text run, unless it is empty. */
  function PushText(out: seq<Inline>, text: string, styles: Styles): seq<Inline> {
    if text == "" then out else Push(out, Text(text, styles))
  }

  lemma PushTextTwice(out: seq<Inline>, x: string, y: string, styles: Styles)
    ensures PushText(PushText(out, x, styles), y, styles) == PushText(out, x + y, styles)
  {
    if x == "" {
      assert x + y == y;
    } else if y == "" {
      assert x + y == x;
    } else {
      PushTwice(out, x, y, styles);
    }
  }

  lemma LiteralReads(text: string, styles: Styles, out: seq<Inline>)
    ensures Reads(Literal(text), styles, out, PushText(out, text, styles))
    ensures ReadsText(Literal(text), styles)
  {
    if text != "" { ReadsRun(TextNode(text), styles, out, Text(text, styles)); }
  }

  /** The nodes of a text read back as runs of one style whose texts concatenate to it. */
  lemma {:induction false} EmbedsRead(value: string, last: nat, at: nat, styles: Styles, out: seq<Inline>,
      nodes: seq<Phrasing>)
    requires last <= at <= |value| && nodes == EmbedsFrom(value, last, at)
    ensures Reads(nodes, styles, out, PushText(out, value[last..], styles))
    ensures ReadsText(nodes, styles)
    decreases |value| - at
  {
    if at == |value| {
      LiteralReads(value[last..], styles, out);
    } else {
      var n := EmbedLength(value[at..]);
      if n == 0 {
        EmbedsRead(value, last, at + 1, styles, out, nodes);
      } else {
        var end := at + n;
        var rest := EmbedsFrom(value, end, end);
        EmbedsRead(value, end, end, styles, PushText(out, value[last..end], styles), rest);
        EmbedsReadHere(value, last, at, end, styles, out, rest, nodes);
      }
    }
  }

  lemma {:induction false} EmbedsUnfold(value: string, last: nat, at: nat, end: nat)
    requires last <= at < end <= |value| && end - at == EmbedLength(value[at..])
    ensures EmbedsFrom(value, last, at) == EmbedAfter(value, last, at, end) + EmbedsFrom(value, end, end)
  {}

  lemma Rejoin(value: string, last: nat, end: nat)
    requires last <= end <= |value|
    ensures value[last..] == value[last..end] + value[end..]
  {}

  lemma {:induction false} EmbedsReadHere(value: string, last: nat, at: nat, end: nat, styles: Styles, out: seq<Inline>,
                       rest: seq<Phrasing>, nodes: seq<Phrasing>)
    requires last <= at < end <= |value| && end - at == EmbedLength(value[at..])
    requires nodes == EmbedsFrom(value, last, at) && rest == EmbedsFrom(value, end, end)
    requires Reads(rest, styles, PushText(out, value[last..end], styles),
      PushText(PushText(out, value[last..end], styles), value[end..], styles))
    requires ReadsText(rest, styles)
    ensures Reads(nodes, styles, out, PushText(out, value[last..], styles)) && ReadsText(nodes, styles)
  {
    var head := EmbedAfter(value, last, at, end);
    EmbedsUnfold(value, last, at, end);
    EmbedsReadStep(value, last, at, end, styles, out);
    Rejoin(value, last, end);
    EmbedsReadFound(value[last..end], value[end..], value[last..], styles, out, head, rest, nodes);
  }

  lemma EmbedsReadFound(first: string, second: string, whole: string, styles: Styles, out: seq<Inline>,
                        head: seq<Phrasing>, rest: seq<Phrasing>, nodes: seq<Phrasing>)
    requires whole == first + second && nodes == head + rest
    requires Reads(head, styles, out, PushText(out, first, styles)) && ReadsText(head, styles)
    requires Reads(rest, styles, PushText(out, first, styles), PushText(PushText(out, first, styles), second, styles))
    requires ReadsText(rest, styles)
    ensures Reads(nodes, styles, out, PushText(out, whole, styles)) && ReadsText(nodes, styles)
  {
    PushTextTwice(out, first, second, styles);
    ReadsSplit(nodes, head, rest, styles, out, PushText(out, first, styles), PushText(out, whole, styles));
  }

  lemma EmbedsReadStep(value: string, last: nat, at: nat, end: nat, styles: Styles, out: seq<Inline>)
    requires last <= at < end <= |value| && end - at == EmbedLength(value[at..])
    ensures var nodes := EmbedAfter(value, last, at, end);
      Reads(nodes, styles, out, PushText(out, value[last..end], styles)) && ReadsText(nodes, styles)
  {
    var text, name := value[last..at], value[at + 3..end - 2];
    assert value[at..][..end - at] == value[at..end];
    assert value[at..][3..end - at - 2] == name;
    assert value[last..end] == text + EmbedText(name);
    LiteralReads(text, styles, out);
    var middle := PushText(out, text, styles);
    ReadsRun(Embed(name), styles, middle, Text(EmbedText(name), styles));
    PushTextTwice(out, text, EmbedText(name), styles);
    ReadsSplit(Literal(text) + [Embed(name)], Literal(text), [Embed(name)], styles, out, middle,
      PushText(middle, EmbedText(name), styles));
  }

  lemma TextOrEmbedsReads(value: string, styles: Styles, out: seq<Inline>)
    ensures Reads(TextOrEmbeds(value), styles, out, Push(out, Text(value, styles)))
    ensures ReadsText(TextOrEmbeds(value), styles)
  {
    if HasEmbed(value) {
      EmbedsRead(value, 0, 0, styles, out, EmbedsFrom(value, 0, 0));
      assert value[0..] == value;
    } else {
      ReadsRun(TextNode(value), styles, out, Text(value, styles));
    }
  }

  // ----- building and walking back -----

  /** What one atom reads back as, before merging, under the wrappers `styles`. */
  function AtomRun(atom: Atom, styles: Styles): Inline {
    match atom
    case HardBreak => Text("\n", Plain)
    case Item(Text(text, own)) => Text(text, styles.Union(own))
    case Item(Link(href, content)) => Link(href, Normal(content))
    case Item(WikiLink(target, alias)) => WikiLink(target, if alias == target then "" else alias)
  }

  function AtomRuns(atoms: seq<Atom>, styles: Styles): (runs: seq<Inline>)
    ensures |runs| == |atoms|
    ensures forall i :: 0 <= i < |atoms| ==> runs[i] == AtomRun(atoms[i], styles)
  {
    if atoms == [] then [] else [AtomRun(atoms[0], styles)] + AtomRuns(atoms[1..], styles)
  }

  predicate Textual(atoms: seq<Atom>) {
    forall i :: 0 <= i < |atoms| ==> atoms[i].HardBreak? || atoms[i].item.Text?
  }

  lemma {:induction false} AtomRunsJoin(a: seq<Atom>, b: seq<Atom>, styles: Styles)
    ensures AtomRuns(a + b, styles) == AtomRuns(a, styles) + AtomRuns(b, styles)
  {
    if a == [] {
      assert a + b == b;
    } else {
      assert (a + b)[1..] == a[1..] + b;
      AtomRunsJoin(a[1..], b, styles);
    }
  }

  lemma {:induction false} AtomRunsSplit(a: seq<Atom>, b: seq<Atom>, styles: Styles, out: seq<Inline>)
    ensures PushAll(out, AtomRuns(a + b, styles)) == PushAll(PushAll(out, AtomRuns(a, styles)), AtomRuns(b, styles))
  {
    AtomRunsJoin(a, b, styles);
    PushAllSplit(out, AtomRuns(a, styles), AtomRuns(b, styles));
  }

  /** Walking a built tree pushes exactly one run per atom, in order, with all its styles. */
  lemma {:induction false} BuildReads(atoms: seq<Atom>, styles: Styles, out: seq<Inline>)
    requires TypedAtoms(atoms)
    requires styles == Plain || Textual(atoms)
    ensures Reads(Build(atoms), styles, out, PushAll(out, AtomRuns(atoms, styles)))
    ensures Textual(atoms) ==> ReadsText(Build(atoms), styles)
    decreases LinkRank(atoms), StyleTotal(atoms), |atoms|, 1
  {
    if atoms != [] {
      var n := HeadLength(atoms);
      HeadReads(atoms, styles, out);
      RestSmaller(atoms, n);
      var first, later := atoms[..n], atoms[n..];
      Halves(atoms, n);
      BuildReads(later, styles, PushAll(out, AtomRuns(first, styles)));
      HeadThenRest(Build(atoms), BuildHead(atoms), Build(later), atoms, first, later, styles, out);
    }
  }

  lemma {:induction false} HeadThenRest(
    whole: seq<Phrasing>, head: seq<Phrasing>, rest: seq<Phrasing>,
    atoms: seq<Atom>, first: seq<Atom>, later: seq<Atom>, styles: Styles, out: seq<Inline>)
    requires whole == head + rest && atoms == first + later
    requires var middle := PushAll(out, AtomRuns(first, styles));
      Reads(head, styles, out, middle) && Reads(rest, styles, middle, PushAll(middle, AtomRuns(later, styles)))
    ensures Reads(whole, styles, out, PushAll(out, AtomRuns(atoms, styles)))
    ensures ReadsText(head, styles) && ReadsText(rest, styles) ==> ReadsText(whole, styles)
  {
    AtomRunsSplit(first, later, styles, out);
    ReadsSplit(whole, head, rest, styles, out,
               PushAll(out, AtomRuns(first, styles)), PushAll(out, AtomRuns(atoms, styles)));
  }

  lemma Halves(atoms: seq<Atom>, n: nat)
    requires n <= |atoms|
    ensures atoms == atoms[..n] + atoms[n..]
  {}

  lemma {:induction false} StyleTotalParts(atoms: seq<Atom>, n: nat)
    requires n <= |atoms|
    ensures StyleTotal(atoms[..n]) + StyleTotal(atoms[n..]) == StyleTotal(atoms)
  {
    StyleTotalSplit(atoms[..n], atoms[n..]);
    assert atoms == atoms[..n] + atoms[n..];
  }

  lemma {:induction false} RestSmaller(atoms: seq<Atom>, n: nat)
    requires 1 <= n <= |atoms|
    ensures LinkRank(atoms[n..]) <= LinkRank(atoms)
    ensures StyleTotal(atoms[n..]) <= StyleTotal(atoms)
  {
    LinkRankRest(atoms, n);
    StyleTotalParts(atoms, n);
  }

  predicate Wraps(atom: Atom) {
    atom.Item? && atom.item.Text? && atom.item.styles.Active() != [] && atom.item.styles.Active()[0] != Code
  }

  /** How many atoms one turn of the loop in `build` consumes. */
  function HeadLength(atoms: seq<Atom>): (n: nat)
    requires atoms != []
    ensures 1 <= n <= |atoms|
  {
    if Wraps(atoms[0]) then
      assert atoms[0].item.styles.Has(atoms[0].item.styles.Active()[0]);
      RunLength(atoms, atoms[0].item.styles.Active()[0])
    else 1
  }

  /** The atoms inside the wrapper that turn opens. */
  function HeadInner(atoms: seq<Atom>): (inner: seq<Atom>)
    requires atoms != [] && Wraps(atoms[0])
    ensures Textual(inner)
  {
    Peel(atoms[..HeadLength(atoms)], atoms[0].item.styles.Active()[0])
  }

  lemma {:induction false} HeadInnerSmaller(atoms: seq<Atom>)
    requires atoms != [] && Wraps(atoms[0])
    ensures LinkRank(HeadInner(atoms)) == 0 && StyleTotal(HeadInner(atoms)) < StyleTotal(atoms)
  {
    var n := HeadLength(atoms);
    var inner := HeadInner(atoms);
    StyleTotalParts(atoms, n);
    PeelShrinks(atoms[..n], atoms[0].item.styles.Active()[0]);
    assert forall i :: 0 <= i < |inner| ==> inner[i].HardBreak? || inner[i].item.Text?;
  }

  /** The nodes that turn produces. */
  function BuildHead(atoms: seq<Atom>): seq<Phrasing>
    requires TypedAtoms(atoms) && atoms != []
    ensures Build(atoms) == BuildHead(atoms) + Build(atoms[HeadLength(atoms)..])
  {
    match atoms[0]
    case HardBreak => [Break]
    case Item(Link(href, content)) =>
      SplitTextOnly(content);
      [LinkNode(href, None, Build(SplitBreaks(content)))]
    case Item(WikiLink(target, alias)) => [WikiNode(target, Some(if alias != "" then alias else target))]
    case Item(Text(value, styles)) =>
      var active := styles.Active();
      if active == [] then TextOrEmbeds(value)
      else if active[0] == Code then [InlineCode(value)]
      else
        [Wrapper(active[0], Build(HeadInner(atoms)))]
  }

  lemma {:induction false} HeadReads(atoms: seq<Atom>, styles: Styles, out: seq<Inline>)
    requires TypedAtoms(atoms) && atoms != []
    requires styles == Plain || Textual(atoms)
    ensures Reads(BuildHead(atoms), styles, out, PushAll(out, AtomRuns(atoms[..HeadLength(atoms)], styles)))
    ensures Textual(atoms) ==> ReadsText(BuildHead(atoms), styles)
    decreases LinkRank(atoms), StyleTotal(atoms), |atoms|, 0
  {
    if Wraps(atoms[0]) {
      WrapperReads(atoms, styles, out);
    } else {
      if atoms[0].Item? && atoms[0].item.Link? {
        var content := atoms[0].item.content;
        SplitTextOnly(content);
        BuildReads(SplitBreaks(content), Plain, []);
        SplitNormal(content, []);
      }
      OneAtom(atoms, styles, out);
      LeafReads(atoms, styles, out);
    }
  }

  lemma {:induction false} OneAtom(atoms: seq<Atom>, styles: Styles, out: seq<Inline>)
    requires atoms != [] && !Wraps(atoms[0])
    ensures PushAll(out, AtomRuns(atoms[..HeadLength(atoms)], styles)) == Push(out, AtomRun(atoms[0], styles))
  {
    var one := [atoms[0]];
    assert atoms[..1] == one && one[1..] == [];
    assert AtomRuns(one, styles) == [AtomRun(atoms[0], styles)];
    PushAllOne(out, AtomRun(atoms[0], styles));
  }

  /** What the content of a link reads back as. */
  predicate ContentReads(content: seq<Inline>) {
    TextOnly(content) && TypedAtoms(SplitBreaks(content))
      && Reads(Build(SplitBreaks(content)), Plain, [], Normal(content))
    && ReadsText(Build(SplitBreaks(content)), Plain)
  }

  /** A head that is no wrapper reads back as its one run. */
  lemma LeafReads(atoms: seq<Atom>, styles: Styles, out: seq<Inline>)
    requires TypedAtoms(atoms) && atoms != [] && !Wraps(atoms[0])
    requires styles == Plain || Textual(atoms)
    requires atoms[0].Item? && atoms[0].item.Link? ==> ContentReads(atoms[0].item.content)
    ensures Reads(BuildHead(atoms), styles, out, Push(out, AtomRun(atoms[0], styles)))
    ensures Textual(atoms) ==> ReadsText(BuildHead(atoms), styles)
  {
    match atoms[0]
    case HardBreak => ReadsRun(Break, styles, out, Text("\n", Plain));
    case Item(Link(href, content)) => LinkReads(atoms, href, content, out);
    case Item(WikiLink(target, alias)) => ReadsRun(BuildHead(atoms)[0], styles, out, AtomRun(atoms[0], styles));
    case Item(Text(value, own)) => TextHeadReads(atoms, value, own, styles, out);
  }

  lemma LinkReads(atoms: seq<Atom>, href: string, content: seq<Inline>, out: seq<Inline>)
    requires TypedAtoms(atoms) && atoms != [] && atoms[0] == Item(Link(href, content)) && ContentReads(content)
    ensures Reads(BuildHead(atoms), Plain, out, Push(out, AtomRun(atoms[0], Plain)))
  {
    SplitTextOnly(content);
    var node := LinkNode(href, None, Build(SplitBreaks(content)));
    assert BuildHead(atoms) == [node];
    ReadsRun(node, Plain, out, Link(href, Normal(content)));
  }

  lemma TextHeadReads(atoms: seq<Atom>, value: string, own: Styles, styles: Styles, out: seq<Inline>)
    requires TypedAtoms(atoms) && atoms != [] && !Wraps(atoms[0]) && atoms[0] == Item(Text(value, own))
    ensures Reads(BuildHead(atoms), styles, out, Push(out, AtomRun(atoms[0], styles)))
    ensures ReadsText(BuildHead(atoms), styles)
  {
    if own.Active() == [] {
      assert styles.Union(own) == styles;
      TextOrEmbedsReads(value, styles, out);
    } else {
      assert styles.Union(own) == styles.With(Code);
      ReadsRun(InlineCode(value), styles, out, Text(value, styles.With(Code)));
    }
  }

  lemma {:induction false} WrapperReads(atoms: seq<Atom>, styles: Styles, out: seq<Inline>)
    requires TypedAtoms(atoms) && atoms != [] && Wraps(atoms[0])
    ensures Reads(BuildHead(atoms), styles, out, PushAll(out, AtomRuns(atoms[..HeadLength(atoms)], styles)))
    ensures ReadsText(BuildHead(atoms), styles)
    decreases LinkRank(atoms), StyleTotal(atoms), 0
  {
    var outer := atoms[0].item.styles.Active()[0];
    var inner := HeadInner(atoms);
    HeadInnerSmaller(atoms);
    BuildReads(inner, styles.With(outer), out);
    InnerRuns(atoms, styles);
    HeadIsWrapper(atoms);
    ReadsWrapper(outer, Build(inner), styles, out, PushAll(out, AtomRuns(inner, styles.With(outer))));
  }

  lemma HeadIsWrapper(atoms: seq<Atom>)
    requires TypedAtoms(atoms) && atoms != [] && Wraps(atoms[0])
    ensures BuildHead(atoms) == [Wrapper(atoms[0].item.styles.Active()[0], Build(HeadInner(atoms)))]
  {}

  lemma ReadsWrapper(outer: Style, children: seq<Phrasing>, styles: Styles, before: seq<Inline>, after: seq<Inline>)
    requires outer != Code && Reads(children, styles.With(outer), before, after)
    ensures Reads([Wrapper(outer, children)], styles, before, after)
    ensures ReadsText(children, styles.With(outer)) ==> ReadsText([Wrapper(outer, children)], styles)
  {
    WalkOne(Wrapper(outer, children), styles);
  }

  /** Peeling a style off the run and wrapping it around the run cancel out. */
  lemma {:induction false} InnerRuns(atoms: seq<Atom>, styles: Styles)
    requires atoms != [] && Wraps(atoms[0])
    ensures AtomRuns(HeadInner(atoms), styles.With(atoms[0].item.styles.Active()[0]))
         == AtomRuns(atoms[..HeadLength(atoms)], styles)
  {
    var outer := atoms[0].item.styles.Active()[0];
    assert atoms[0].item.styles.Has(outer);
    forall i | 0 <= i < HeadLength(atoms)
      ensures AtomRun(HeadInner(atoms)[i], styles.With(outer)) == AtomRun(atoms[i], styles)
    {
      assert atoms[i].item.styles.Has(outer);
    }
  }

  /** The runs of the split items merge to the normal form. */
  lemma {:induction false} SplitNormal(items: seq<Inline>, out: seq<Inline>)
    ensures PushAll(out, AtomRuns(SplitBreaks(items), Plain)) == PushAll(out, NormalItems(items))
    decreases items
  {
    if items != [] {
      AtomRunsSplit(SplitItem(items[0]), SplitBreaks(items[1..]), Plain, out);
      PushAllSplit(out, NormalItem(items[0]), NormalItems(items[1..]));
      SplitItemNormal(items[0], out);
      SplitNormal(items[1..], PushAll(out, NormalItem(items[0])));
    }
  }

  lemma {:induction false} SplitItemNormal(item: Inline, out: seq<Inline>)
    ensures PushAll(out, AtomRuns(SplitItem(item), Plain)) == PushAll(out, NormalItem(item))
  {
    if item.Text? && item.text != "" {
      TextAtomsSingle(item.text, item.styles);
      TextAtomsNormal(item.text, item.styles, out);
    } else {
      assert AtomRuns([Item(item)], Plain) == [AtomRun(Item(item), Plain)];
    }
  }

  // ----- splitting at newlines -----

  function TextAtoms(text: string, styles: Styles): seq<Atom> {
    var parts := Parts(text);
    Run(parts[0], styles) + LaterParts(parts[1..], styles)
  }

  lemma {:induction false} PartsWithoutNewline(text: string)
    requires '\n' !in text
    ensures Parts(text) == [text]
    decreases |text|
  {
    if text != "" {
      PartsWithoutNewline(text[1..]);
      assert text == [text[0]] + text[1..];
    }
  }

  lemma TextAtomsSingle(text: string, styles: Styles)
    requires text != ""
    ensures TextAtoms(text, styles) == SplitItem(Text(text, styles))
  {
    if '\n' !in text { PartsWithoutNewline(text); }
  }

  lemma {:induction false} PartsAppend(a: string, b: string)
    ensures Parts(a + "\n" + b) == Parts(a) + Parts(b)
    decreases |a|
  {
    if a == "" {
      assert (a + "\n" + b)[1..] == b;
    } else {
      assert (a + "\n" + b)[1..] == a[1..] + "\n" + b;
      PartsAppend(a[1..], b);
    }
  }

  lemma {:induction false} LaterPartsAppend(a: seq<string>, b: seq<string>, styles: Styles)
    ensures LaterParts(a + b, styles) == LaterParts(a, styles) + LaterParts(b, styles)
  {
    if a == [] {
      assert a + b == b;
    } else {
      assert (a + b)[1..] == a[1..] + b;
      LaterPartsAppend(a[1..], b, styles);
    }
  }

  lemma {:induction false} LaterIsBreak(parts: seq<string>, styles: Styles)
    requires parts != []
    ensures LaterParts(parts, styles) == [HardBreak] + (Run(parts[0], styles) + LaterParts(parts[1..], styles))
  {
    assert [HardBreak] + Run(parts[0], styles) + LaterParts(parts[1..], styles)
      == [HardBreak] + (Run(parts[0], styles) + LaterParts(parts[1..], styles));
  }

  lemma Regroup(a: seq<Atom>, b: seq<Atom>, c: seq<Atom>, d: seq<Atom>)
    ensures a + (b + (c + d)) == a + b + c + d
  {}

  /** A newline in the text is a hard break between the atoms of the two sides. */
  lemma TextAtomsAppend(a: string, b: string, styles: Styles)
    ensures TextAtoms(a + "\n" + b, styles) == TextAtoms(a, styles) + [HardBreak] + TextAtoms(b, styles)
  {
    PartsAppend(a, b);
    PartsJoin(Parts(a + "\n" + b), Parts(a), Parts(b), styles);
  }

  lemma {:induction false} PartsJoin(whole: seq<string>, pa: seq<string>, pb: seq<string>, styles: Styles)
    requires pa != [] && pb != [] && whole == pa + pb
    ensures Run(whole[0], styles) + LaterParts(whole[1..], styles)
      == (Run(pa[0], styles) + LaterParts(pa[1..], styles)) + [HardBreak]
        + (Run(pb[0], styles) + LaterParts(pb[1..], styles))
  {
    assert whole[1..] == pa[1..] + pb && whole[0] == pa[0];
    LaterPartsAppend(pa[1..], pb, styles);
    LaterIsBreak(pb, styles);
    var atoms := Run(pb[0], styles) + LaterParts(pb[1..], styles);
    Regroup(Run(pa[0], styles), LaterParts(pa[1..], styles), [HardBreak], atoms);
  }

  function FirstNewline(text: string): (k: nat)
    requires '\n' in text
    ensures k < |text| && text[k] == '\n' && '\n' !in text[..k]
  {
    if text[0] == '\n' then 0 else 1 + FirstNewline(text[1..])
  }

  lemma {:induction false} CutAppend(a: string, b: string, styles: Styles)
    ensures Cut(a + b, styles) == Cut(a, styles) + Cut(b, styles)
    decreases |a|
  {
    if a == "" {
      assert a + b == b;
    } else {
      assert (a + b)[1..] == a[1..] + b;
      CutAppend(a[1..], b, styles);
    }
  }

  lemma {:induction false} TextAtomsNormal(text: string, styles: Styles, out: seq<Inline>)
    ensures PushAll(out, AtomRuns(TextAtoms(text, styles), Plain)) == PushAll(out, Cut(text, styles))
    decreases |text|
  {
    if '\n' !in text {
      PartsWithoutNewline(text);
      assert Parts(text)[1..] == [];
      if text != "" {
        CutPush(out, text, styles);
        assert AtomRuns(TextAtoms(text, styles), Plain) == [Text(text, styles)];
      }
    } else {
      var k := FirstNewline(text);
      var a, b := text[..k], text[k + 1..];
      assert text == a + "\n" + b;
      TextAtomsAppend(a, b, styles);
      CutAppend(a + "\n", b, styles);
      CutAppend(a, "\n", styles);
      assert Cut("\n", styles) == [Text("\n", Plain)];
      AtomRunsSplit(TextAtoms(a, styles) + [HardBreak], TextAtoms(b, styles), Plain, out);
      AtomRunsSplit(TextAtoms(a, styles), [HardBreak], Plain, out);
      assert AtomRuns([HardBreak], Plain) == Cut("\n", styles);
      PushAllSplit(out, Cut(a + "\n", styles), Cut(b, styles));
      PushAllSplit(out, Cut(a, styles), Cut("\n", styles));
      TextAtomsNormal(a, styles, out);
      TextAtomsNormal(b, styles, PushAll(out, Cut(a + "\n", styles)));
    }
  }

  /** Flattening a rebuilt tree never fails and gives the normal form, for all inline content. */
  lemma RoundTrip(items: seq<Inline>)
    requires WellTyped(items)
    ensures ToInline(FromInline(items)) == Some(Normal(items))
  {
    SplitTyped(items);
    BuildReads(SplitBreaks(items), Plain, []);
    SplitNormal(items, []);
  }
}
