/** What a reader sees, defined once for flat items and once for trees, and the proof that both
    converters keep it: every character with its style set and enclosing link, in order. */
module InlineMeaning {
  import opened Common
  import opened Inline
  import InlineProofs

  datatype Glyph =
    | Char(c: char, styles: Styles, link: Option<string>)
    | LinkStart(href: string, title: Option<string>)
    | Page(target: string, alias: string)
    | Picture(url: string, alt: string, title: Option<string>)
    | Markup(markup: string)

  function ReadText(text: string, styles: Styles, link: Option<string>): seq<Glyph> {
    if text == "" then []
    else [Char(text[0], if text[0] == '\n' then Plain else styles, link)] + ReadText(text[1..], styles, link)
  }

  function ReadItem(item: Inline, link: Option<string>): seq<Glyph>
    decreases item
  {
    match item
    case Text(text, styles) => ReadText(text, styles, link)
    case Link(href, content) => [LinkStart(href, None)] + ReadItems(content, Some(href))
    case WikiLink(target, alias) => [Page(target, if alias == target then "" else alias)]
  }

  function ReadItems(items: seq<Inline>, link: Option<string>): seq<Glyph>
    decreases items
  {
    if items == [] then [] else ReadItem(items[0], link) + ReadItems(items[1..], link)
  }

  function ReadNode(node: Phrasing, styles: Styles, link: Option<string>): seq<Glyph>
    decreases node
  {
    match node
    case TextNode(value) => ReadText(value, styles, link)
    case Break => [Char('\n', Plain, link)]
    case InlineCode(value) => ReadText(value, styles.With(Code), link)
    case Strong(children) => ReadNodes(children, styles.With(Bold), link)
    case Emphasis(children) => ReadNodes(children, styles.With(Italic), link)
    case Delete(children) => ReadNodes(children, styles.With(Strike), link)
    case LinkNode(url, title, children) => [LinkStart(url, title)] + ReadNodes(children, styles, Some(url))
    case Embed(value) => ReadText("![[" + value + "]]", styles, link)
    case WikiNode(value, data) =>
      [Page(value, if data.Some? && data.value != value then data.value else "")]
    case Image(url, alt, title) => [Picture(url, if alt.Some? then alt.value else "", title)]
    case Foreign(markup) => [Markup(markup)]
  }

  function ReadNodes(nodes: seq<Phrasing>, styles: Styles, link: Option<string>): seq<Glyph>
    decreases nodes
  {
    if nodes == [] then [] else ReadNode(nodes[0], styles, link) + ReadNodes(nodes[1..], styles, link)
  }

  // ----- items -----

  lemma {:induction false} ReadItemsSplit(a: seq<Inline>, b: seq<Inline>, link: Option<string>)
    ensures ReadItems(a + b, link) == ReadItems(a, link) + ReadItems(b, link)
    decreases |a|
  {
    if a == [] {
      assert a + b == b;
    } else {
      assert (a + b)[1..] == a[1..] + b;
      ReadItemsSplit(a[1..], b, link);
    }
  }

  lemma {:induction false} ReadTextSplit(a: string, b: string, styles: Styles, link: Option<string>)
    ensures ReadText(a + b, styles, link) == ReadText(a, styles, link) + ReadText(b, styles, link)
    decreases |a|
  {
    if a == "" {
      assert a + b == b;
    } else {
      assert (a + b)[1..] == a[1..] + b;
      ReadTextSplit(a[1..], b, styles, link);
    }
  }

  lemma {:induction false} ReadOne(item: Inline, link: Option<string>)
    ensures ReadItems([item], link) == ReadItem(item, link)
  {
    assert [item][1..] == [];
  }

  lemma {:induction false} ReadJoined(front: seq<Inline>, x: string, y: string, styles: Styles, link: Option<string>)
    ensures ReadItems(front + [Text(x + y, styles)], link)
         == ReadItems(front + [Text(x, styles)], link) + ReadText(y, styles, link)
  {
    ReadItemsSplit(front, [Text(x, styles)], link);
    ReadOne(Text(x, styles), link);
    ReadItemsSplit(front, [Text(x + y, styles)], link);
    ReadOne(Text(x + y, styles), link);
    ReadTextSplit(x, y, styles, link);
  }

  lemma {:induction false} PushKeepsReading(out: seq<Inline>, item: Inline, link: Option<string>)
    ensures ReadItems(Push(out, item), link) == ReadItems(out, link) + ReadItem(item, link)
  {
    if out != [] && item.Text? && out[|out| - 1].Text? && out[|out| - 1].styles == item.styles {
      var front := out[..|out| - 1];
      assert out == front + [Text(out[|out| - 1].text, item.styles)];
      ReadJoined(front, out[|out| - 1].text, item.text, item.styles, link);
    } else {
      ReadOne(item, link);
      ReadItemsSplit(out, [item], link);
    }
  }

  lemma {:induction false} PushAllKeepsReading(out: seq<Inline>, items: seq<Inline>, link: Option<string>)
    ensures ReadItems(PushAll(out, items), link) == ReadItems(out, link) + ReadItems(items, link)
    decreases |items|
  {
    if items != [] {
      PushKeepsReading(out, items[0], link);
      PushAllKeepsReading(Push(out, items[0]), items[1..], link);
    }
  }

  /** Merging neighbours changes nothing a reader sees. */
  lemma {:induction false} MergeKeepsReading(items: seq<Inline>, link: Option<string>)
    ensures ReadItems(MergeText(items), link) == ReadItems(items, link)
  {
    PushAllKeepsReading([], items, link);
  }

  lemma {:induction false} CutKeepsReading(text: string, styles: Styles, link: Option<string>)
    ensures ReadItems(InlineProofs.Cut(text, styles), link) == ReadText(text, styles, link)
    decreases |text|
  {
    if text != "" {
      CutKeepsReading(text[1..], styles, link);
      var head := InlineProofs.Cut(text, styles)[0];
      ReadItemsSplit([head], InlineProofs.Cut(text[1..], styles), link);
      ReadOne(head, link);
      assert [text[0]][1..] == "";
      assert ReadText([text[0]], head.styles, link) == [Char(text[0], head.styles, link)];
    }
  }

  lemma {:induction false} NormalItemsKeepReading(items: seq<Inline>, link: Option<string>)
    ensures ReadItems(InlineProofs.NormalItems(items), link) == ReadItems(items, link)
    decreases items, 1
  {
    if items != [] {
      NormalItemKeepsReading(items[0], link);
      NormalItemsKeepReading(items[1..], link);
      ReadItemsSplit(InlineProofs.NormalItem(items[0]), InlineProofs.NormalItems(items[1..]), link);
    }
  }

  lemma {:induction false} NormalItemKeepsReading(item: Inline, link: Option<string>)
    ensures ReadItems(InlineProofs.NormalItem(item), link) == ReadItem(item, link)
    decreases item, 0
  {
    match item
    case Text(text, styles) => if text == "" { ReadOne(item, link); } else { CutKeepsReading(text, styles, link); }
    case WikiLink(_, _) => ReadOne(InlineProofs.NormalItem(item)[0], link);
    case Link(href, content) =>
      ReadOne(InlineProofs.NormalItem(item)[0], link);
      NormalItemsKeepReading(content, Some(href));
      MergeKeepsReading(InlineProofs.NormalItems(content), Some(href));
  }

  // ----- trees -----

  lemma {:induction false} WalkKeepsReading(nodes: seq<Phrasing>, styles: Styles, link: Option<string>)
    requires Walk(nodes, styles).Some?
    ensures ReadItems(Walk(nodes, styles).value, link) == ReadNodes(nodes, styles, link)
    decreases nodes, 1
  {
    if nodes != [] {
      WalkNodeKeepsReading(nodes[0], styles, link);
      WalkKeepsReading(nodes[1..], styles, link);
      ReadItemsSplit(WalkNode(nodes[0], styles).value, Walk(nodes[1..], styles).value, link);
    }
  }

  lemma {:induction false} WalkNodeKeepsReading(node: Phrasing, styles: Styles, link: Option<string>)
    requires WalkNode(node, styles).Some?
    ensures ReadItems(WalkNode(node, styles).value, link) == ReadNode(node, styles, link)
    decreases node, 0
  {
    match node
    case Strong(children) => WalkKeepsReading(children, styles.With(Bold), link);
    case Emphasis(children) => WalkKeepsReading(children, styles.With(Italic), link);
    case Delete(children) => WalkKeepsReading(children, styles.With(Strike), link);
    case LinkNode(url, _, children) =>
      WalkKeepsReading(children, styles, Some(url));
      MergeKeepsReading(Walk(children, styles).value, Some(url));
      ReadOne(WalkNode(node, styles).value[0], link);
    case Break =>
      assert "\n"[1..] == "";
      assert ReadText("\n", Plain, link) == [Char('\n', Plain, link)];
      ReadOne(Text("\n", Plain), link);
    case TextNode(value) => ReadOne(Text(value, styles), link);
    case InlineCode(value) => ReadOne(Text(value, styles.With(Code)), link);
    case Embed(value) => ReadOne(Text(EmbedText(value), styles), link);
    case WikiNode(value, data) => ReadOne(WalkNode(node, styles).value[0], link);
  }

  /** Whatever tree is flattened, the reader sees the same. */
  lemma {:induction false} FlattenKeepsReading(nodes: seq<Phrasing>)
    requires ToInline(nodes).Some?
    ensures ReadItems(ToInline(nodes).value, None) == ReadNodes(nodes, Plain, None)
  {
    WalkKeepsReading(nodes, Plain, None);
    MergeKeepsReading(Walk(nodes, Plain).value, None);
  }

  /** Whatever items a tree is built from, the reader sees the same. */
  lemma {:induction false} BuildKeepsReading(items: seq<Inline>)
    requires WellTyped(items)
    ensures ReadNodes(FromInline(items), Plain, None) == ReadItems(items, None)
  {
    InlineProofs.RoundTrip(items);
    FlattenKeepsReading(FromInline(items));
    NormalItemsKeepReading(items, None);
    MergeKeepsReading(InlineProofs.NormalItems(items), None);
  }

  // ----- which trees have a flat form -----

  /** A link or a page link, under any wrappers. */
  predicate HasLink(nodes: seq<Phrasing>)
    decreases nodes
  {
    nodes != [] && (NodeHasLink(nodes[0]) || HasLink(nodes[1..]))
  }

  predicate NodeHasLink(node: Phrasing)
    decreases node
  {
    match node
    case Strong(children) => HasLink(children)
    case Emphasis(children) => HasLink(children)
    case Delete(children) => HasLink(children)
    case LinkNode(_, _, _) => true
    case WikiNode(_, _) => true
    case _ => false
  }

  /** No image, no foreign markup, no titled link, and no link inside a link, at any depth. */
  predicate Expressible(nodes: seq<Phrasing>)
    decreases nodes
  {
    nodes == [] || (NodeExpressible(nodes[0]) && Expressible(nodes[1..]))
  }

  predicate NodeExpressible(node: Phrasing)
    decreases node
  {
    match node
    case Strong(children) => Expressible(children)
    case Emphasis(children) => Expressible(children)
    case Delete(children) => Expressible(children)
    case LinkNode(_, title, children) => title.None? && Expressible(children) && !HasLink(children)
    case Image(_, _, _) => false
    case Foreign(_) => false
    case _ => true
  }

  lemma {:induction false} WalkExactly(nodes: seq<Phrasing>, styles: Styles)
    ensures Walk(nodes, styles).Some? <==> Expressible(nodes)
    ensures Walk(nodes, styles).Some? ==> (TextOnly(Walk(nodes, styles).value) <==> !HasLink(nodes))
    decreases nodes, 1
  {
    if nodes != [] {
      WalkNodeExactly(nodes[0], styles);
      WalkExactly(nodes[1..], styles);
      if Walk(nodes, styles).Some? {
        TextOnlyJoin(WalkNode(nodes[0], styles).value, Walk(nodes[1..], styles).value);
      }
    }
  }

  lemma TextOnlyJoin(a: seq<Inline>, b: seq<Inline>)
    ensures TextOnly(a + b) <==> TextOnly(a) && TextOnly(b)
  {
    assert forall i :: 0 <= i < |a| ==> (a + b)[i] == a[i];
    assert forall i :: 0 <= i < |b| ==> (a + b)[|a| + i] == b[i];
  }

  lemma {:induction false} WalkNodeExactly(node: Phrasing, styles: Styles)
    ensures WalkNode(node, styles).Some? <==> NodeExpressible(node)
    ensures WalkNode(node, styles).Some? ==> (TextOnly(WalkNode(node, styles).value) <==> !NodeHasLink(node))
    decreases node, 0
  {
    match node
    case Strong(children) => WalkExactly(children, styles.With(Bold));
    case Emphasis(children) => WalkExactly(children, styles.With(Italic));
    case Delete(children) => WalkExactly(children, styles.With(Strike));
    case LinkNode(url, title, children) =>
      WalkExactly(children, styles);
      if WalkNode(node, styles).Some? { assert !WalkNode(node, styles).value[0].Text?; }
    case WikiNode(_, _) => assert !WalkNode(node, styles).value[0].Text?;
    case _ =>
  }

  /** Exactly the trees without images, foreign markup, titled links and links in links have a flat
      form. */
  lemma {:induction false} FlattenedExactly(nodes: seq<Phrasing>)
    ensures ToInline(nodes).Some? <==> Expressible(nodes)
  {
    WalkExactly(nodes, Plain);
  }
}
