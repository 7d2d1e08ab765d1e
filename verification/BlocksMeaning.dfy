/** What a reader sees of a document, defined once over trees and once over blocks, and the proof that
    both converters keep it: saving blocks loses, doubles and moves nothing, and reading a tree into
    blocks changes only what is listed in `Settled`. */
module BlocksMeaning {
  import opened Common
  import opened Inline
  import opened InlineMeaning
  import opened Blocks
  import opened BlocksProofs
  import BlocksRoundTrip
  import InlineProofs
  import InlineShape
  import InlineStable

  // ----- what is seen -----

  /** Containers open and close around what they hold. A checkbox hides the number of its item; the
      number a list starts with is not part of what is read here. */
  datatype Mark =
    | Para(text: seq<Glyph>)
    | Head(level: int, text: seq<Glyph>)
    | QuoteStart
    | QuoteEnd
    | Rule
    | Grid(align: seq<Option<Align>>, cells: seq<seq<seq<Glyph>>>)
    | File(file: string)
    | FoldStart(kind: string, folded: Option<bool>, title: seq<Glyph>)
    | FoldEnd
    | ItemStart(ordered: bool, loose: bool, checked: Option<bool>)
    | ItemEnd
    | Verbatim(markdown: string)
    | Unknown(markup: string)

  function TextOf(nodes: seq<Phrasing>): seq<Glyph> {
    ReadNodes(nodes, Plain, None)
  }

  function RowOf(row: seq<seq<Phrasing>>): seq<seq<Glyph>> {
    seq(|row|, i requires 0 <= i < |row| => TextOf(row[i]))
  }

  function RowsOf(rows: seq<seq<seq<Phrasing>>>): seq<seq<seq<Glyph>>> {
    seq(|rows|, i requires 0 <= i < |rows| => RowOf(rows[i]))
  }

  /** Markdown text reads as itself without newlines at the end, printed nodes read as the node. */
  function DocSource(source: Source): seq<Mark>
    decreases source
  {
    match source
    case Written(text) => if Trim(text) == EMPTY_MARKER then [Para([])] else [Verbatim(StripNewlines(text))]
    case Printed(node) => DocNode(node)
  }

  function DocNode(node: Node): seq<Mark>
    decreases node
  {
    match node
    case Html(source) => DocSource(source)
    case Heading(depth, children) => [Head(depth, TextOf(children))]
    case Paragraph(children) => [Para(TextOf(children))]
    case Blockquote(body) => [QuoteStart] + DocNodes(body) + [QuoteEnd]
    case Callout(kind, folded, title, body) => [FoldStart(kind, folded, TextOf(title))] + DocNodes(body) + [FoldEnd]
    case ThematicBreak => [Rule]
    case List(ordered, _, spread, items) => DocItems(ordered, spread, items)
    case Table(align, rows) => [Grid(align, RowsOf(rows))]
    case TableFence(file) => [File(file)]
    case Unmapped(markup) => [Unknown(markup)]
  }

  function DocNodes(nodes: seq<Node>): seq<Mark>
    decreases nodes
  {
    if nodes == [] then [] else DocNode(nodes[0]) + DocNodes(nodes[1..])
  }

  function DocItems(ordered: bool, spread: bool, items: seq<ListItem>): seq<Mark>
    decreases items
  {
    if items == [] then [] else DocItem(ordered, spread, items[0]) + DocItems(ordered, spread, items[1..])
  }

  function DocItem(ordered: bool, spread: bool, item: ListItem): seq<Mark>
    decreases item
  {
    [ItemStart(ordered && item.checked.None?, spread || item.spread, item.checked)]
      + DocNodes(item.children) + [ItemEnd]
  }

  // ----- what the editor shows -----

  function CellText(cells: seq<Cell>): seq<seq<Glyph>> {
    seq(|cells|, i requires 0 <= i < |cells| => ReadItems(cells[i].content, None))
  }

  function CellTexts(cells: seq<seq<Cell>>): seq<seq<seq<Glyph>>> {
    seq(|cells|, i requires 0 <= i < |cells| => CellText(cells[i]))
  }

  function HeaderAlign(cells: seq<seq<Cell>>): seq<Option<Align>> {
    if cells == [] then [] else seq(|cells[0]|, i requires 0 <= i < |cells[0]| => CellAlign(cells[0][i]))
  }

  /** The name a page link shows. */
  function PageName(path: string, title: string, target: string): string {
    if target != "" then target else if title != "" then title else path
  }

  /** Whether a table file can be written as an embed. */
  predicate Embeds(file: string, embed: bool) {
    embed && IsCsv(file) && '[' !in file && ']' !in file && '\n' !in file
  }

  /** A block as the editor shows it. Its children follow it, inside it where it is a container. */
  function SeenBlock(block: Block): seq<Mark>
    decreases block
  {
    match block
    case ParagraphBlock(content, children) => [Para(ReadItems(content, None))] + SeenBlocks(children)
    case HeadingBlock(level, content, children) => [Head(level, ReadItems(content, None))] + SeenBlocks(children)
    case QuoteBlock(content, children) => [QuoteStart, Para(ReadItems(content, None)), QuoteEnd] + SeenBlocks(children)
    case DividerBlock(children) => [Rule] + SeenBlocks(children)
    case ImageBlock(url, caption, children) => [Para([Picture(url, caption, None)])] + SeenBlocks(children)
    case PageLinkBlock(path, title, target, children) =>
      [Para([Page(PageName(path, title, target), "")])] + SeenBlocks(children)
    case TableBlock(cells, children) => [Grid(HeaderAlign(cells), CellTexts(cells))] + SeenBlocks(children)
    case TableViewBlock(file, embed, children) =>
      [if Embeds(file, embed) then Para(ReadText("![[" + file + "]]", Plain, None)) else File(file)]
        + SeenBlocks(children)
    case ToggleBlock(content, children) =>
      [FoldStart("toggle", Some(true), ReadItems(content, None))] + SeenBlocks(children) + [FoldEnd]
    case CalloutBlock(kind, fold, content, children) =>
      var folded := if fold == "-" then Some(true) else if fold == "+" then Some(false) else None;
      [FoldStart(if kind == "" then "note" else kind, folded, ReadItems(content, None))]
        + SeenBlocks(children) + [FoldEnd]
    case BulletBlock(content, children) =>
      [ItemStart(false, false, None)] + SeenContent(content) + SeenBlocks(children) + [ItemEnd]
    case NumberedBlock(_, content, children) =>
      [ItemStart(true, false, None)] + SeenContent(content) + SeenBlocks(children) + [ItemEnd]
    case CheckBlock(checked, content, children) =>
      [ItemStart(false, false, Some(checked))] + SeenContent(content) + SeenBlocks(children) + [ItemEnd]
    case RawBlock(source, children) => DocSource(source) + SeenBlocks(children)
  }

  /** An item without content has no paragraph. */
  function SeenContent(content: seq<Inline>): seq<Mark> {
    if content == [] then [] else [Para(ReadItems(content, None))]
  }

  function SeenBlocks(blocks: seq<Block>): seq<Mark>
    decreases blocks
  {
    if blocks == [] then [] else SeenBlock(blocks[0]) + SeenBlocks(blocks[1..])
  }

  // ----- reading in parts -----

  lemma {:induction false} DocJoin(a: seq<Node>, b: seq<Node>)
    ensures DocNodes(a + b) == DocNodes(a) + DocNodes(b)
    decreases |a|
  {
    if a == [] {
      assert a + b == b;
    } else {
      assert (a + b)[1..] == a[1..] + b;
      DocJoin(a[1..], b);
    }
  }

  lemma {:induction false} DocOne(node: Node)
    ensures DocNodes([node]) == DocNode(node)
  {
    assert [node][1..] == [];
  }

  lemma {:induction false} DocFirst(node: Node, rest: seq<Node>)
    ensures DocNodes([node] + rest) == DocNode(node) + DocNodes(rest)
  {
    assert ([node] + rest)[1..] == rest;
  }

  lemma {:induction false} DocItemsJoin(ordered: bool, spread: bool, a: seq<ListItem>, b: seq<ListItem>)
    ensures DocItems(ordered, spread, a + b) == DocItems(ordered, spread, a) + DocItems(ordered, spread, b)
    decreases |a|
  {
    if a == [] {
      assert a + b == b;
    } else {
      assert (a + b)[1..] == a[1..] + b;
      DocItemsJoin(ordered, spread, a[1..], b);
    }
  }

  lemma {:induction false} DocItemsOne(ordered: bool, spread: bool, item: ListItem)
    ensures DocItems(ordered, spread, [item]) == DocItem(ordered, spread, item)
  {
    assert [item][1..] == [];
  }

  lemma {:induction false} SeenJoin(a: seq<Block>, b: seq<Block>)
    ensures SeenBlocks(a + b) == SeenBlocks(a) + SeenBlocks(b)
    decreases |a|
  {
    if a == [] {
      assert a + b == b;
    } else {
      assert (a + b)[1..] == a[1..] + b;
      SeenJoin(a[1..], b);
    }
  }

  lemma {:induction false} SeenOne(block: Block)
    ensures SeenBlocks([block]) == SeenBlock(block)
  {
    assert [block][1..] == [];
  }

  // ----- merging lists -----

  lemma {:induction false} MergeNodeReads(out: seq<Node>, node: Node)
    ensures DocNodes(MergeNode(out, node)) == DocNodes(out) + DocNode(node)
  {
    if out != [] && Mergeable(out[|out| - 1], node) {
      var front, last := out[..|out| - 1], out[|out| - 1];
      assert out == front + [last];
      var grown := last.(items := last.items + node.items);
      DocJoin(front, [last]);
      DocOne(last);
      DocJoin(front, [grown]);
      DocOne(grown);
      DocItemsJoin(last.ordered, last.spread, last.items, node.items);
      assert DocNodes(front) + (DocNode(last) + DocNode(node)) == DocNodes(front) + DocNode(last) + DocNode(node);
    } else {
      DocJoin(out, [node]);
      DocOne(node);
    }
  }

  lemma {:induction false} MergeIntoReads(out: seq<Node>, nodes: seq<Node>)
    ensures DocNodes(MergeInto(out, nodes)) == DocNodes(out) + DocNodes(nodes)
    decreases |nodes|
  {
    if nodes != [] {
      MergeNodeReads(out, nodes[0]);
      MergeIntoReads(MergeNode(out, nodes[0]), nodes[1..]);
    }
  }

  /** Fusing neighbouring lists changes nothing that is read. */
  lemma {:induction false} MergeListsReads(nodes: seq<Node>)
    ensures DocNodes(MergeLists(nodes)) == DocNodes(nodes)
  {
    MergeIntoReads([], nodes);
  }

  // ----- sources -----

  lemma {:induction false} TrimStartNewline(s: string)
    ensures TrimStart(s + "\n") == if TrimStart(s) == "" then "" else TrimStart(s) + "\n"
  {
    if s != "" {
      assert (s + "\n")[1..] == s[1..] + "\n";
      if IsJsSpace(s[0]) { TrimStartNewline(s[1..]); }
    } else {
      assert ("" + "\n")[1..] == "";
    }
  }

  lemma TrimNewline(s: string)
    ensures Trim(s + "\n") == Trim(s)
  {
    TrimStartNewline(s);
    var t := TrimStart(s);
    if t != "" { assert (t + "\n")[..|t + "\n"| - 1] == t; }
  }

  lemma {:induction false} StripNewlinesTrims(s: string)
    ensures Trim(StripNewlines(s)) == Trim(s) && StripNewlines(StripNewlines(s)) == StripNewlines(s)
  {
    if s != "" && s[|s| - 1] == '\n' {
      var front := s[..|s| - 1];
      StripNewlinesTrims(front);
      assert s == front + "\n";
      TrimNewline(front);
    }
  }

  lemma {:induction false} StripReads(source: Source)
    ensures DocSource(StripSource(source)) == DocSource(source)
  {
    if source.Written? { StripNewlinesTrims(source.text); }
  }

  lemma {:induction false} RawReads(node: Node)
    ensures SeenBlock(Raw(node)) == DocNode(node)
  {
    assert SeenBlocks([]) == [];
  }

  // ----- saving blocks -----

  lemma {:induction false} ContentShows(content: Content)
    ensures FromInline(content) == [] <==> content == []
  {
    SplitTyped(content);
    InlineShape.BuildShape(SplitBreaks(content), Plain);
    if content != [] {
      var first := content[0];
      if first.Text? && first.text != "" {
        InlineProofs.TextAtomsSingle(first.text, first.styles);
        InlineStable.TextAtomsSeparated(first.text, first.styles);
      }
      assert SplitItem(first) != [];
    }
  }

  lemma {:induction false} CellNodesRead(cells: seq<seq<Cell>>)
    ensures RowsOf(seq(|cells|, i requires 0 <= i < |cells| => CellNodes(cells[i]))) == CellTexts(cells)
  {
    var rows := seq(|cells|, i requires 0 <= i < |cells| => CellNodes(cells[i]));
    forall i | 0 <= i < |cells| ensures RowOf(rows[i]) == CellText(cells[i]) {
      forall k | 0 <= k < |cells[i]| ensures TextOf(rows[i][k]) == CellText(cells[i])[k] {
        BuildKeepsReading(cells[i][k].content);
      }
    }
  }

  lemma {:induction false} SavedBlocksRead(blocks: seq<Block>)
    ensures DocNodes(BlocksToNodes(blocks)) == SeenBlocks(blocks)
    decreases blocks, 1
  {
    if blocks != [] {
      SavedBlockReads(blocks[0]);
      SavedBlocksRead(blocks[1..]);
      DocJoin(BlockToNodes(blocks[0]), BlocksToNodes(blocks[1..]));
    }
  }

  lemma {:induction false} SavedBlockReads(block: Block)
    ensures DocNodes(BlockToNodes(block)) == SeenBlock(block)
    decreases block, 0
  {
    SavedBlocksRead(block.children);
    MergeListsReads(BlocksToNodes(block.children));
    if IsItem(block) {
      SavedItemReads(block, MergeLists(BlocksToNodes(block.children)));
    } else if block.ToggleBlock? || block.CalloutBlock? {
      SavedFoldReads(block, MergeLists(BlocksToNodes(block.children)));
    } else {
      SavedPlainReads(block, BlocksToNodes(block.children));
    }
  }

  predicate IsItem(block: Block) {
    block.BulletBlock? || block.NumberedBlock? || block.CheckBlock?
  }

  lemma {:induction false} TextOne(node: Phrasing)
    ensures TextOf([node]) == ReadNode(node, Plain, None)
  {
    var nodes := [node];
    assert nodes[1..] == [];
    assert ReadNodes([], Plain, None) == [];
    assert ReadNodes(nodes, Plain, None) == ReadNode(nodes[0], Plain, None) + ReadNodes(nodes[1..], Plain, None);
  }

  /** A block that is no container: its own node, and then its children. */
  lemma {:induction false} SavedPlainReads(block: Block, rest: seq<Node>)
    requires !IsItem(block) && !block.ToggleBlock? && !block.CalloutBlock?
    requires rest == BlocksToNodes(block.children) && DocNodes(rest) == SeenBlocks(block.children)
    ensures DocNodes(BlockToNodes(block)) == SeenBlock(block)
  {
    var first := BlockToNodes(block)[0];
    OwnNode(block, first, rest);
    DocFirst(first, rest);
    if block.ParagraphBlock? || block.HeadingBlock? || block.QuoteBlock? {
      TextBlockReads(block, first);
    } else if block.TableBlock? {
      CellNodesRead(block.cells);
    } else if block.RawBlock? {
      StripReads(block.source);
    } else {
      LeafReads(block, first);
    }
  }

  lemma {:induction false} OwnNode(block: Block, first: Node, rest: seq<Node>)
    requires !IsItem(block) && !block.ToggleBlock? && !block.CalloutBlock?
    requires rest == BlocksToNodes(block.children) && first == BlockToNodes(block)[0]
    ensures BlockToNodes(block) == [first] + rest
  {}

  lemma {:induction false} TextBlockReads(block: Block, first: Node)
    requires block.ParagraphBlock? || block.HeadingBlock? || block.QuoteBlock?
    requires BlockToNodes(block) == [first] + BlocksToNodes(block.children)
    ensures SeenBlock(block) == DocNode(first) + SeenBlocks(block.children)
  {
    assert BlockToNodes(block)[0] == first;
    BuildKeepsReading(block.content);
    if block.QuoteBlock? { QuoteReads(block.content); }
  }

  lemma {:induction false} LeafReads(block: Block, first: Node)
    requires block.ImageBlock? || block.PageLinkBlock? || block.TableViewBlock? || block.DividerBlock?
    requires BlockToNodes(block) == [first] + BlocksToNodes(block.children)
    ensures SeenBlock(block) == DocNode(first) + SeenBlocks(block.children)
  {
    assert BlockToNodes(block)[0] == first;
    match block
    case ImageBlock(url, caption, _) => TextOne(Image(url, Some(caption), None));
    case PageLinkBlock(path, title, target, _) =>
      TextOne(WikiNode(PageName(path, title, target), Some(PageName(path, title, target))));
    case TableViewBlock(file, _, _) => TextOne(Embed(file));
    case DividerBlock(_) =>
  }

  lemma {:induction false} QuoteReads(content: Content)
    ensures DocNode(Blockquote([Paragraph(FromInline(content))]))
         == [QuoteStart, Para(ReadItems(content, None)), QuoteEnd]
  {
    BuildKeepsReading(content);
    DocOne(Paragraph(FromInline(content)));
  }

  lemma {:induction false} SavedFoldReads(block: Block, nested: seq<Node>)
    requires block.ToggleBlock? || block.CalloutBlock?
    requires nested == MergeLists(BlocksToNodes(block.children)) && DocNodes(nested) == SeenBlocks(block.children)
    ensures DocNodes(BlockToNodes(block)) == SeenBlock(block)
  {
    var node := BlockToNodes(block)[0];
    BuildKeepsReading(block.content);
    assert BlockToNodes(block) == [node] && node.body == nested;
    DocOne(node);
  }

  lemma {:induction false} SavedItemReads(block: Block, nested: seq<Node>)
    requires IsItem(block)
    requires nested == MergeLists(BlocksToNodes(block.children)) && DocNodes(nested) == SeenBlocks(block.children)
    ensures DocNodes(BlockToNodes(block)) == SeenBlock(block)
  {
    var item := ListItemOf(block);
    var list := BlockToNodes(block)[0];
    ItemChildrenRead(block, item.children, nested);
    assert BlockToNodes(block) == [list] && list == List(block.NumberedBlock?, list.start, false, [item]);
    OneItemReads(list, block.NumberedBlock?, item);
    ItemSeen(block, item.checked, DocNodes(item.children));
  }

  lemma {:induction false} OneItemReads(list: Node, ordered: bool, item: ListItem)
    requires list.List? && list == List(ordered, list.start, false, [item])
    ensures DocNodes([list]) == DocItem(ordered, false, item)
  {
    DocOne(list);
    DocItemsOne(ordered, false, item);
  }

  lemma {:induction false} ItemChildrenRead(block: Block, children: seq<Node>, nested: seq<Node>)
    requires IsItem(block) && nested == MergeLists(BlocksToNodes(block.children))
    requires children == ListItemOf(block).children
    ensures DocNodes(children) == SeenContent(block.content) + DocNodes(nested)
  {
    var phrasing := FromInline(block.content);
    ContentShows(block.content);
    BuildKeepsReading(block.content);
    if phrasing != [] {
      DocFirst(Paragraph(phrasing), nested);
      assert children == [Paragraph(phrasing)] + nested;
    } else {
      assert children == nested;
    }
  }

  /** Saving loses, doubles and moves nothing: whatever blocks the editor holds, nested where markdown
      cannot nest or not, the saved tree reads as the blocks do, each block followed by its children. */
  lemma {:induction false} SavedReads(blocks: seq<Block>)
    ensures DocNodes(MergeLists(BlocksToNodes(blocks))) == SeenBlocks(blocks)
  {
    SavedBlocksRead(blocks);
    MergeListsReads(BlocksToNodes(blocks));
  }

  // ----- reading a tree into blocks -----

  /** Wrappers around nothing. */
  predicate Bare(nodes: seq<Phrasing>)
    decreases nodes
  {
    nodes == [] || (NodeBare(nodes[0]) && Bare(nodes[1..]))
  }

  predicate NodeBare(node: Phrasing)
    decreases node
  {
    match node
    case Strong(children) => Bare(children)
    case Emphasis(children) => Bare(children)
    case Delete(children) => Bare(children)
    case _ => false
  }

  /** A lone page link loses its alias, a lone table file the blanks around it. */
  function SettledParagraph(children: seq<Phrasing>): Node {
    if |children| == 1 && children[0].WikiNode? then
      Paragraph([WikiNode(children[0].value, Some(children[0].value))])
    else if |children| == 1 && children[0].Embed? && IsCsv(Trim(children[0].value)) then
      var file := Trim(children[0].value);
      if Embeds(file, true) then Paragraph([Embed(file)]) else TableFence(file)
    else Paragraph(children)
  }

  predicate RowExpressible(row: seq<seq<Phrasing>>) {
    forall i :: 0 <= i < |row| ==> Expressible(row[i])
  }

  predicate RowsExpressible(rows: seq<seq<seq<Phrasing>>>) {
    forall i :: 0 <= i < |rows| ==> RowExpressible(rows[i])
  }

  /** One alignment for each header cell. */
  function ColumnAligns(align: seq<Option<Align>>, rows: seq<seq<seq<Phrasing>>>): seq<Option<Align>> {
    if rows == [] then []
    else seq(|rows[0]|, i requires 0 <= i < |rows[0]| => if i < |align| then align[i] else None)
  }

  predicate Maps(item: ListItem) {
    item.children == [] ||
    (item.children[0].Paragraph? && Expressible(item.children[0].children) && OnlyLists(item.children[1..]))
  }

  predicate Tight(spread: bool, items: seq<ListItem>) {
    !spread && forall i :: 0 <= i < |items| ==> !items[i].spread
  }

  /** All that reading a tree into blocks changes: lone page links and table files are settled,
      toggles fold, a callout without a kind is a note, a table has one alignment per column, and an
      item loses a first paragraph that holds nothing. What stays raw markdown stays as it is. */
  function SettledNode(node: Node): Node
    decreases node
  {
    match node
    case Paragraph(children) => SettledParagraph(children)
    case Callout(kind, folded, title, body) =>
      if !Expressible(title) then node
      else
        Callout(if kind == "" then "note" else kind, if kind == "toggle" then Some(true) else folded, title,
                Settled(body))
    case List(ordered, start, spread, items) =>
      if Tight(spread, items) then List(ordered, start, spread, SettledItems(items)) else node
    case Table(align, rows) =>
      if Some(Left) in align || !RowsExpressible(rows) then node else Table(ColumnAligns(align, rows), rows)
    case _ => node
  }

  function Settled(nodes: seq<Node>): seq<Node>
    decreases nodes
  {
    if nodes == [] then [] else [SettledNode(nodes[0])] + Settled(nodes[1..])
  }

  function SettledItem(item: ListItem): ListItem
    decreases item
  {
    if item.children == [] || !Maps(item) then item
    else
      var first := if Bare(item.children[0].children) then [] else [item.children[0]];
      item.(children := first + Settled(item.children[1..]))
  }

  function SettledItems(items: seq<ListItem>): seq<ListItem>
    decreases items
  {
    if items == [] then [] else [SettledItem(items[0])] + SettledItems(items[1..])
  }

  lemma {:induction false} FlattenReads(nodes: seq<Phrasing>)
    ensures Flatten(nodes).Some? <==> Expressible(nodes)
    ensures Flatten(nodes).Some? ==> ReadItems(Flatten(nodes).value, None) == TextOf(nodes)
  {
    FlattenedExactly(nodes);
    if Flatten(nodes).Some? { FlattenKeepsReading(nodes); }
  }

  lemma {:induction false} BareExactly(nodes: seq<Phrasing>, styles: Styles)
    requires Walk(nodes, styles).Some?
    ensures Walk(nodes, styles).value == [] <==> Bare(nodes)
    decreases nodes, 1
  {
    if nodes != [] {
      NodeBareExactly(nodes[0], styles);
      BareExactly(nodes[1..], styles);
    }
  }

  lemma {:induction false} NodeBareExactly(node: Phrasing, styles: Styles)
    requires WalkNode(node, styles).Some?
    ensures WalkNode(node, styles).value == [] <==> NodeBare(node)
    decreases node, 0
  {
    match node
    case Strong(children) => BareExactly(children, styles.With(Bold));
    case Emphasis(children) => BareExactly(children, styles.With(Italic));
    case Delete(children) => BareExactly(children, styles.With(Strike));
    case _ =>
  }

  lemma {:induction false} PushAllSome(out: seq<Inline>, items: seq<Inline>)
    ensures PushAll(out, items) == [] <==> out == [] && items == []
    decreases |items|
  {
    if items != [] { PushAllSome(Push(out, items[0]), items[1..]); }
  }

  lemma {:induction false} FlattenBare(nodes: seq<Phrasing>)
    requires Flatten(nodes).Some?
    ensures Flatten(nodes).value == [] <==> Bare(nodes)
  {
    BareExactly(nodes, Plain);
    PushAllSome([], Walk(nodes, Plain).value);
  }

  lemma {:induction false} ParagraphMaps(children: seq<Phrasing>, node: Node)
    requires node == Paragraph(children)
    ensures SeenBlocks(NodeToBlocks(node)) == DocNode(SettledParagraph(children))
  {
    FlattenReads(children);
    RawReads(node);
    var block := NodeToBlocks(node)[0];
    SeenOne(block);
    assert SeenBlocks([]) == [];
    if |children| == 1 {
      assert children == [children[0]];
      TextOne(children[0]);
      if children[0].WikiNode? {
        TextOne(WikiNode(children[0].value, Some(children[0].value)));
      } else if children[0].Embed? {
        TextOne(Embed(Trim(children[0].value)));
      }
    }
  }

  lemma {:induction false} RowMaps(row: seq<seq<Phrasing>>, align: seq<Option<Align>>, aligned: bool)
    ensures var cells := RowToCells(row, align, aligned, 0);
      (cells.Some? <==> RowExpressible(row)) && (cells.Some? ==> CellText(cells.value) == RowOf(row))
  {
    RowCells(row, align, aligned, 0);
    var cells := RowToCells(row, align, aligned, 0);
    forall c | 0 <= c < |row|
      ensures Flatten(row[c]).Some? <==> Expressible(row[c])
      ensures Flatten(row[c]).Some? ==> ReadItems(Flatten(row[c]).value, None) == TextOf(row[c])
    {
      FlattenReads(row[c]);
    }
    if cells.Some? {
      forall c | 0 <= c < |row| ensures Expressible(row[c]) && CellText(cells.value)[c] == RowOf(row)[c] {
        assert CellOf(cells.value[c], row[c], align, aligned, c);
      }
    }
  }

  lemma {:induction false} RowsMap(rows: seq<seq<seq<Phrasing>>>, align: seq<Option<Align>>, aligned: bool)
    ensures var cells := RowsToCells(rows, align, aligned);
      (cells.Some? <==> RowsExpressible(rows)) && (cells.Some? ==> CellTexts(cells.value) == RowsOf(rows))
    decreases |rows|
  {
    if rows != [] {
      RowMaps(rows[0], align, aligned);
      RowsMap(rows[1..], align, aligned);
      RowsFirst(rows);
      var head, rest := RowToCells(rows[0], align, aligned, 0), RowsToCells(rows[1..], align, aligned);
      if head.Some? && rest.Some? { CellTextsFirst(head.value, rest.value); }
    }
  }

  lemma RowsFirst(rows: seq<seq<seq<Phrasing>>>)
    requires rows != []
    ensures RowsOf(rows) == [RowOf(rows[0])] + RowsOf(rows[1..])
    ensures RowsExpressible(rows) <==> RowExpressible(rows[0]) && RowsExpressible(rows[1..])
  {
    assert forall i :: 0 < i < |rows| ==> rows[i] == rows[1..][i - 1];
  }

  lemma CellTextsFirst(head: seq<Cell>, rest: seq<seq<Cell>>)
    ensures CellTexts([head] + rest) == [CellText(head)] + CellTexts(rest)
  {}

  lemma {:induction false} TableAligns(align: seq<Option<Align>>, rows: seq<seq<seq<Phrasing>>>, cells: seq<seq<Cell>>)
    requires Some(Left) !in align && RowsToCells(rows, align, HasAlign(align)) == Some(cells)
    ensures HeaderAlign(cells) == ColumnAligns(align, rows)
  {
    if rows != [] {
      RowCells(rows[0], align, HasAlign(align), 0);
      forall c | 0 <= c < |rows[0]| ensures HeaderAlign(cells)[c] == ColumnAligns(align, rows)[c] {
        assert CellOf(cells[0][c], rows[0][c], align, HasAlign(align), c);
      }
    }
  }

  lemma {:induction false} TableMaps(align: seq<Option<Align>>, rows: seq<seq<seq<Phrasing>>>, node: Node)
    requires node == Table(align, rows)
    ensures SeenBlocks(NodeToBlocks(node)) == DocNode(SettledNode(node))
  {
    assert (exists i :: 0 <= i < |align| && align[i].Some?) == HasAlign(align);
    RowsMap(rows, align, HasAlign(align));
    RawReads(node);
    SeenOne(NodeToBlocks(node)[0]);
    var mapped := TableToBlock(align, rows);
    if mapped.Some? {
      TableAligns(align, rows, mapped.value.cells);
      assert SeenBlocks([]) == [];
    }
  }

  lemma {:induction false} SimpleMaps(node: Node)
    requires node.Html? || node.Heading? || node.Blockquote? || node.ThematicBreak? || node.TableFence?
      || node.Unmapped?
    ensures SeenBlocks(NodeToBlocks(node)) == DocNode(node)
  {
    RawReads(node);
    SeenOne(NodeToBlocks(node)[0]);
    assert SeenBlocks([]) == [];
    if node.Heading? {
      FlattenReads(node.children);
    } else if node.Blockquote? && |node.body| == 1 && node.body[0].Paragraph? {
      FlattenReads(node.body[0].children);
      assert node.body == [node.body[0]];
      DocOne(node.body[0]);
    }
  }

  lemma {:induction false} MappedReads(nodes: seq<Node>)
    ensures SeenBlocks(NodesToBlocks(nodes)) == DocNodes(Settled(nodes))
    decreases nodes, 1
  {
    if nodes != [] {
      MappedNodeReads(nodes[0]);
      MappedReads(nodes[1..]);
      SeenJoin(NodeToBlocks(nodes[0]), NodesToBlocks(nodes[1..]));
      DocFirst(SettledNode(nodes[0]), Settled(nodes[1..]));
    }
  }

  lemma {:induction false} MappedNodeReads(node: Node)
    ensures SeenBlocks(NodeToBlocks(node)) == DocNode(SettledNode(node))
    decreases node, 0
  {
    match node
    case Paragraph(children) => ParagraphMaps(children, node);
    case Callout(_, _, title, body) =>
      MappedReads(body);
      CalloutMaps(node);
    case List(ordered, start, spread, items) =>
      if Tight(spread, items) {
        MappedItemsRead(ordered, start, items, true);
      } else {
        RawReads(node);
        SeenOne(Raw(node));
      }
    case Table(align, rows) => TableMaps(align, rows, node);
    case _ => SimpleMaps(node);
  }

  lemma {:induction false} CalloutMaps(node: Node)
    requires node.Callout? && SeenBlocks(NodesToBlocks(node.body)) == DocNodes(Settled(node.body))
    ensures SeenBlocks(NodeToBlocks(node)) == DocNode(SettledNode(node))
  {
    FlattenReads(node.title);
    if Flatten(node.title).None? {
      RawReads(node);
      SeenOne(Raw(node));
    } else {
      var block := NodeToBlocks(node)[0];
      SeenOne(block);
      FoldMaps(node, block, SeenBlocks(block.children));
    }
  }

  lemma {:induction false} FoldMaps(node: Node, block: Block, inner: seq<Mark>)
    requires node.Callout? && Flatten(node.title).Some? && Expressible(node.title)
    requires ReadItems(Flatten(node.title).value, None) == TextOf(node.title)
    requires NodeToBlocks(node) == [block]
    requires inner == SeenBlocks(block.children) == DocNodes(Settled(node.body))
    ensures SeenBlock(block) == DocNode(SettledNode(node))
  {
    BlocksRoundTrip.FoldBack(node.folded);
  }

  lemma {:induction false} MappedItemsRead(ordered: bool, start: Option<int>, items: seq<ListItem>, first: bool)
    requires forall i :: 0 <= i < |items| ==> !items[i].spread
    ensures SeenBlocks(ItemsToBlocks(ordered, start, items, first)) == DocItems(ordered, false, SettledItems(items))
    decreases items, 1
  {
    if items != [] {
      MappedItemReads(ordered, start, items[0], first);
      MappedItemsRead(ordered, start, items[1..], false);
      assert SettledItems(items)[1..] == SettledItems(items[1..]);
      assert ItemsToBlocks(ordered, start, items, first)[1..] == ItemsToBlocks(ordered, start, items[1..], false);
    }
  }

  lemma {:induction false} MappedItemReads(ordered: bool, start: Option<int>, item: ListItem, first: bool)
    requires !item.spread
    ensures SeenBlock(ItemToBlock(ordered, start, item, first)) == DocItem(ordered, false, SettledItem(item))
    decreases item, 0
  {
    if item.children != [] {
      MappedReads(item.children[1..]);
      BlocksRoundTrip.ItemChildrenAreBlocks(item.children[1..]);
      if item.children[0].Paragraph? {
        FlattenReads(item.children[0].children);
        if Flatten(item.children[0].children).Some? { FlattenBare(item.children[0].children); }
      }
    }
    if Maps(item) {
      MadeItemMaps(ordered, start, item, first);
    } else {
      RawItemMaps(ordered, start, item, first);
    }
  }

  lemma {:induction false} RawItemMaps(ordered: bool, start: Option<int>, item: ListItem, first: bool)
    requires ListItemBlock(ordered, item).None? && !Maps(item)
    ensures SeenBlock(ItemToBlock(ordered, start, item, first)) == DocItem(ordered, false, SettledItem(item))
  {
    DocItemsOne(ordered, false, item);
    var list := List(ordered, start, false, [item]);
    var seen := DocItem(ordered, false, item);
    assert DocSource(Printed(list)) == DocNode(list) == seen;
    assert SeenBlocks([]) == [] && seen + [] == seen;
  }

  lemma {:induction false} MadeItemMaps(ordered: bool, start: Option<int>, item: ListItem, first: bool)
    requires !item.spread && Maps(item) && ListItemBlock(ordered, item).Some?
    requires item.children != [] ==>
      var content := Flatten(item.children[0].children);
      && content.Some? && ReadItems(content.value, None) == TextOf(item.children[0].children)
      && (content.value == [] <==> Bare(item.children[0].children))
      && ItemChildren(item.children[1..]) == Some(NodesToBlocks(item.children[1..]))
      && SeenBlocks(NodesToBlocks(item.children[1..])) == DocNodes(Settled(item.children[1..]))
    ensures SeenBlock(ItemToBlock(ordered, start, item, first)) == DocItem(ordered, false, SettledItem(item))
  {
    var block := ItemToBlock(ordered, start, item, first);
    assert IsItem(block) && block.NumberedBlock? == (ordered && item.checked.None?);
    if item.children == [] {
      assert SeenContent(block.content) + SeenBlocks(block.children) == DocNodes([]);
    } else {
      SettledChildren(item, block.content, block.children);
    }
    ItemSeen(block, item.checked, DocNodes(SettledItem(item).children));
  }

  lemma {:induction false} SettledChildren(item: ListItem, content: seq<Inline>, children: seq<Block>)
    requires item.children != [] && Maps(item)
    requires content == [] <==> Bare(item.children[0].children)
    requires ReadItems(content, None) == TextOf(item.children[0].children)
    requires SeenBlocks(children) == DocNodes(Settled(item.children[1..]))
    ensures DocNodes(SettledItem(item).children) == SeenContent(content) + SeenBlocks(children)
  {
    var rest := Settled(item.children[1..]);
    if Bare(item.children[0].children) {
      assert [] + rest == rest;
    } else {
      DocFirst(item.children[0], rest);
    }
  }

  lemma {:induction false} ItemSeen(block: Block, checked: Option<bool>, inner: seq<Mark>)
    requires IsItem(block) && checked == (if block.CheckBlock? then Some(block.checked) else None)
    requires inner == SeenContent(block.content) + SeenBlocks(block.children)
    ensures SeenBlock(block) == [ItemStart(block.NumberedBlock?, false, checked)] + inner + [ItemEnd]
  {
    var open := ItemStart(block.NumberedBlock?, false, checked);
    assert [open] + SeenContent(block.content) + SeenBlocks(block.children) == [open] + inner;
  }

  /** Reading a tree into blocks and saving it again changes nothing that is read but what `Settled`
      lists: for every tree, faithful or not. */
  lemma {:induction false} TripReads(nodes: seq<Node>)
    ensures DocNodes(RoundTrip(nodes)) == DocNodes(Settled(nodes))
  {
    MappedReads(nodes);
    SavedReads(NodesToBlocks(nodes));
  }

  // ----- what stays raw -----

  /** A paragraph with nothing but an image without a title, a page link or a table file. */
  predicate Alone(children: seq<Phrasing>) {
    |children| == 1 &&
    match children[0]
    case Image(_, _, title) => title.None?
    case WikiNode(_, _) => true
    case Embed(file) => IsCsv(Trim(file))
    case _ => false
  }

  /** Markdown the editor has no block for. */
  predicate StaysRaw(node: Node) {
    match node
    case Html(_) => !IsEmptyMarker(node)
    case Heading(_, children) => !Expressible(children)
    case Paragraph(children) => !Alone(children) && !Expressible(children)
    case Blockquote(body) => |body| != 1 || !body[0].Paragraph? || !Expressible(body[0].children)
    case Callout(_, _, title, _) => !Expressible(title)
    case List(_, _, spread, items) => !Tight(spread, items) || (|items| == 1 && !Maps(items[0]))
    case Table(align, rows) => Some(Left) in align || !RowsExpressible(rows)
    case ThematicBreak => false
    case TableFence(_) => false
    case Unmapped(_) => true
  }

  /** A node is kept as one raw block exactly when the editor has no block for it. */
  lemma {:induction false} RawExactly(node: Node)
    ensures NodeToBlocks(node) == [Raw(node)] <==> StaysRaw(node)
  {
    match node
    case Heading(_, children) => FlattenReads(children);
    case Paragraph(children) => ParagraphKinds(children);
    case Blockquote(body) => if |body| == 1 && body[0].Paragraph? { FlattenReads(body[0].children); }
    case Callout(_, _, title, _) => FlattenReads(title);
    case Table(align, rows) =>
      assert (exists i :: 0 <= i < |align| && align[i].Some?) == HasAlign(align);
      RowsMap(rows, align, HasAlign(align));
    case List(ordered, start, spread, items) =>
      if Tight(spread, items) { TightRawExactly(ordered, start, items); }
    case _ =>
  }

  lemma {:induction false} TightRawExactly(ordered: bool, start: Option<int>, items: seq<ListItem>)
    requires Tight(false, items)
    ensures ItemsToBlocks(ordered, start, items, true) == [Raw(List(ordered, start, false, items))] <==>
      |items| == 1 && !Maps(items[0])
  {
    if |items| == 1 {
      assert items == [items[0]] && items[1..] == [];
      ItemRawExactly(ordered, start, items[0], true);
      assert ItemsToBlocks(ordered, start, items[1..], false) == [];
      assert ItemsToBlocks(ordered, start, items, true) == [ItemToBlock(ordered, start, items[0], true)];
      assert Raw(List(ordered, start, false, items)).RawBlock?;
    }
  }

  /** An item is kept as raw markdown exactly when it is more than a paragraph and nested lists. */
  lemma {:induction false} ItemRawExactly(ordered: bool, start: Option<int>, item: ListItem, first: bool)
    ensures ItemToBlock(ordered, start, item, first).RawBlock? <==> !Maps(item)
    ensures !Maps(item) ==> ItemToBlock(ordered, start, item, first) == Raw(List(ordered, start, false, [item]))
    ensures Maps(item) ==> var block := ItemToBlock(ordered, start, item, first);
      && (block.CheckBlock? <==> item.checked.Some?)
      && (block.NumberedBlock? <==> ordered && item.checked.None?)
      && (block.CheckBlock? ==> item.checked == Some(block.checked))
      && (block.NumberedBlock? ==> block.start == if first && start != Some(1) then start else None)
  {
    if item.children != [] {
      if item.children[0].Paragraph? { FlattenReads(item.children[0].children); }
      BlocksRoundTrip.ItemChildrenAreBlocks(item.children[1..]);
    }
  }

  /** Which block a paragraph becomes. */
  lemma {:induction false} ParagraphKinds(children: seq<Phrasing>)
    ensures var block := NodeToBlocks(Paragraph(children))[0];
      && |NodeToBlocks(Paragraph(children))| == 1
      && (block.PageLinkBlock? <==> Alone(children) && children[0].WikiNode?)
      && (block.ImageBlock? <==> Alone(children) && children[0].Image?)
      && (block.TableViewBlock? <==> Alone(children) && children[0].Embed?)
      && (block.ParagraphBlock? <==> !Alone(children) && Expressible(children))
      && (block.RawBlock? <==> !Alone(children) && !Expressible(children))
  {
    FlattenReads(children);
    if |children| == 1 && children[0].Image? { assert children == [children[0]]; }
  }
}
