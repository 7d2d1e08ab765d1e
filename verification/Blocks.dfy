/** mdast block content <-> Graite blocks (packages/md-convert/src/blocks.ts).

    Callout titles are kept as phrasing trees: printing and re-parsing them is library code.
    What the library printer writes for a node is the symbolic `Printed(node)`. */
module Blocks {
  import opened Common
  import opened Inline

  // ----- strings -----

  /** The characters `String.prototype.trim` removes. */
  predicate IsJsSpace(c: char) {
    '\t' <= c <= '\r' || c == ' ' || c == '\U{00A0}' || c == '\U{1680}' || '\U{2000}' <= c <= '\U{200A}'
    || c == '\U{2028}' || c == '\U{2029}' || c == '\U{202F}' || c == '\U{205F}' || c == '\U{3000}' || c == '\U{FEFF}'
  }

  function TrimStart(s: string): string {
    if s != "" && IsJsSpace(s[0]) then TrimStart(s[1..]) else s
  }

  function TrimEnd(s: string): string {
    if s != "" && IsJsSpace(s[|s| - 1]) then TrimEnd(s[..|s| - 1]) else s
  }

  function Trim(s: string): string {
    TrimEnd(TrimStart(s))
  }

  function StripNewlines(s: string): string {
    if s != "" && s[|s| - 1] == '\n' then StripNewlines(s[..|s| - 1]) else s
  }

  predicate IsCsv(s: string) {
    |s| >= 4 && s[|s| - 4] == '.' && s[|s| - 3] in "cC" && s[|s| - 2] in "sS" && s[|s| - 1] in "vV"
  }

  const EMPTY_MARKER := "<!-- graite:empty -->"

  // ----- data -----

  datatype Align = Left | Center | Right

  datatype Node =
    | Html(source: Source)
    | Heading(depth: int, children: seq<Phrasing>)
    | Paragraph(children: seq<Phrasing>)
    | Blockquote(body: seq<Node>)
    | Callout(kind: string, folded: Option<bool>, title: seq<Phrasing>, body: seq<Node>)
    | ThematicBreak
    | List(ordered: bool, start: Option<int>, spread: bool, items: seq<ListItem>)
    | Table(align: seq<Option<Align>>, rows: seq<seq<seq<Phrasing>>>)
    | TableFence(file: string)
    | Unmapped(markup: string)

  datatype ListItem = ListItem(spread: bool, checked: Option<bool>, children: seq<Node>)

  /** Markdown source text: written by hand, or what the printer writes for a node. */
  datatype Source = Written(text: string) | Printed(node: Node)

  /** Inline content as its type allows it. */
  type Content = items: seq<Inline> | WellTyped(items) witness []

  datatype Cell = PlainCell(content: Content) | AlignedCell(align: Align, content: Content)

  datatype Block =
    | ParagraphBlock(content: Content, children: seq<Block>)
    | HeadingBlock(level: int, content: Content, children: seq<Block>)
    | QuoteBlock(content: Content, children: seq<Block>)
    | DividerBlock(children: seq<Block>)
    | ImageBlock(url: string, caption: string, children: seq<Block>)
    | PageLinkBlock(path: string, title: string, target: string, children: seq<Block>)
    | TableBlock(cells: seq<seq<Cell>>, children: seq<Block>)
    | TableViewBlock(file: string, embed: bool, children: seq<Block>)
    | ToggleBlock(content: Content, children: seq<Block>)
    | CalloutBlock(kind: string, fold: string, content: Content, children: seq<Block>)
    | BulletBlock(content: Content, children: seq<Block>)
    | NumberedBlock(start: Option<int>, content: Content, children: seq<Block>)
    | CheckBlock(checked: bool, content: Content, children: seq<Block>)
    | RawBlock(source: Source, children: seq<Block>)

  // ----- inline content -----

  lemma {:induction false} PushAllTyped(out: seq<Inline>, items: seq<Inline>)
    requires WellTyped(out) && WellTyped(items)
    ensures WellTyped(PushAll(out, items))
    ensures TextOnly(out) && TextOnly(items) ==> TextOnly(PushAll(out, items))
    decreases |items|
  {
    if items != [] { PushAllTyped(Push(out, items[0]), items[1..]); }
  }

  lemma {:induction false} WalkTyped(nodes: seq<Phrasing>, styles: Styles)
    requires Walk(nodes, styles).Some?
    ensures WellTyped(Walk(nodes, styles).value)
    decreases nodes, 1
  {
    if nodes != [] {
      WalkNodeTyped(nodes[0], styles);
      WalkTyped(nodes[1..], styles);
    }
  }

  lemma {:induction false} WalkNodeTyped(node: Phrasing, styles: Styles)
    requires WalkNode(node, styles).Some?
    ensures WellTyped(WalkNode(node, styles).value)
    decreases node, 0
  {
    match node
    case Strong(children) => WalkTyped(children, styles.With(Bold));
    case Emphasis(children) => WalkTyped(children, styles.With(Italic));
    case Delete(children) => WalkTyped(children, styles.With(Strike));
    case LinkNode(_, _, children) => PushAllTyped([], Walk(children, styles).value);
    case _ =>
  }

  function Flatten(nodes: seq<Phrasing>): (content: Option<Content>)
    ensures content == ToInline(nodes)
  {
    var out := Walk(nodes, Plain);
    if out.Some? then
      WalkTyped(nodes, Plain);
      PushAllTyped([], out.value);
      Some(MergeText(out.value))
    else None
  }

  // ----- markdown -> blocks -----

  predicate IsEmptyMarker(node: Node) {
    node.Html? && node.source.Written? && Trim(node.source.text) == EMPTY_MARKER
  }

  /** What the printer writes for one node; an html node prints as its own text. */
  function Print(node: Node): Source {
    if node.Html? then node.source else Printed(node)
  }

  function Raw(node: Node): Block {
    RawBlock(Print(node), [])
  }

  function ParagraphToBlock(children: seq<Phrasing>): Option<Block> {
    if |children| == 1 && children[0].WikiNode? then
      Some(PageLinkBlock("", children[0].value, children[0].value, []))
    else if |children| == 1 && children[0].Image? then
      if children[0].imageTitle.Some? then None
      else Some(ImageBlock(children[0].url, if children[0].alt.Some? then children[0].alt.value else "", []))
    else if |children| == 1 && children[0].Embed? && IsCsv(Trim(children[0].value)) then
      Some(TableViewBlock(Trim(children[0].value), true, []))
    else
      var content := Flatten(children);
      if content.Some? then Some(ParagraphBlock(content.value, [])) else None
  }

  function FoldMark(folded: Option<bool>): string {
    if folded == Some(true) then "-" else if folded == Some(false) then "+" else ""
  }

  function RowToCells(row: seq<seq<Phrasing>>, align: seq<Option<Align>>, aligned: bool, index: nat)
    : Option<seq<Cell>>
    decreases |row| - index
  {
    if index >= |row| then Some([])
    else
      var content := Flatten(row[index]);
      var rest := RowToCells(row, align, aligned, index + 1);
      if content.Some? && rest.Some? then
        var side := if index < |align| && align[index].Some? then align[index].value else Left;
        Some([if aligned then AlignedCell(side, content.value) else PlainCell(content.value)] + rest.value)
      else None
  }

  function RowsToCells(rows: seq<seq<seq<Phrasing>>>, align: seq<Option<Align>>, aligned: bool)
    : Option<seq<seq<Cell>>>
  {
    if rows == [] then Some([])
    else
      var head := RowToCells(rows[0], align, aligned, 0);
      var rest := RowsToCells(rows[1..], align, aligned);
      if head.Some? && rest.Some? then Some([head.value] + rest.value) else None
  }

  /** An explicit left alignment cannot be told from none on the way back. */
  function TableToBlock(align: seq<Option<Align>>, rows: seq<seq<seq<Phrasing>>>): Option<Block> {
    if Some(Left) in align then None
    else
      var cells := RowsToCells(rows, align, exists i :: 0 <= i < |align| && align[i].Some?);
      if cells.Some? then Some(TableBlock(cells.value, [])) else None
  }

  function OrRaw(block: Option<Block>, node: Node): Block {
    if block.Some? then block.value else Raw(node)
  }

  /** `nodeToBlocks`. */
  function NodeToBlocks(node: Node): seq<Block>
    decreases node
  {
    match node
    case Html(_) => [if IsEmptyMarker(node) then ParagraphBlock([], []) else Raw(node)]
    case Heading(depth, children) =>
      var content := Flatten(children);
      [if content.Some? then HeadingBlock(depth, content.value, []) else Raw(node)]
    case Paragraph(children) => [OrRaw(ParagraphToBlock(children), node)]
    case Blockquote(body) =>
      if |body| == 1 && body[0].Paragraph? then
        var content := Flatten(body[0].children);
        [if content.Some? then QuoteBlock(content.value, []) else Raw(node)]
      else [Raw(node)]
    case Callout(kind, folded, title, body) =>
      var content := Flatten(title);
      if content.None? then [Raw(node)]
      else if kind == "toggle" then [ToggleBlock(content.value, NodesToBlocks(body))]
      else [CalloutBlock(kind, FoldMark(folded), content.value, NodesToBlocks(body))]
    case ThematicBreak => [DividerBlock([])]
    case List(ordered, start, spread, items) =>
      if spread || (exists i :: 0 <= i < |items| && items[i].spread) then [Raw(node)]
      else ItemsToBlocks(ordered, start, items, true)
    case Table(align, rows) => [OrRaw(TableToBlock(align, rows), node)]
    case TableFence(file) => [TableViewBlock(file, false, [])]
    case Unmapped(_) => [Raw(node)]
  }

  /** `nodesToBlocks`. */
  function NodesToBlocks(nodes: seq<Node>): seq<Block>
    decreases nodes
  {
    if nodes == [] then [] else NodeToBlocks(nodes[0]) + NodesToBlocks(nodes[1..])
  }

  /** The items of a tight list. Only the first numbered item carries the list's start. */
  function ItemsToBlocks(ordered: bool, start: Option<int>, items: seq<ListItem>, first: bool): (blocks: seq<Block>)
    ensures |blocks| == |items|
    decreases items
  {
    if items == [] then []
    else [ItemToBlock(ordered, start, items[0], first)] + ItemsToBlocks(ordered, start, items[1..], false)
  }

  function ItemToBlock(ordered: bool, start: Option<int>, item: ListItem, first: bool): Block
    decreases item, 1
  {
    var block := ListItemBlock(ordered, item);
    if block.None? then RawBlock(Printed(List(ordered, start, false, [item])), [])
    else if block.value.NumberedBlock? && first && start.Some? && start.value != 1 then block.value.(start := start)
    else block.value
  }

  /** `listItemBlock`: none when the item holds more than one paragraph and nested lists. */
  function ListItemBlock(ordered: bool, item: ListItem): (block: Option<Block>)
    ensures block.Some? ==> (block.value.BulletBlock? || block.value.CheckBlock? || block.value.NumberedBlock?)
    ensures block.Some? && block.value.NumberedBlock? ==> block.value.start.None?
    decreases item, 0
  {
    if item.children != [] && !item.children[0].Paragraph? then None
    else
      var content := if item.children == [] then Some([]) else Flatten(item.children[0].children);
      if content.None? then None
      else
        var nested := if item.children == [] then Some([]) else ItemChildren(item.children[1..]);
        if nested.None? then None
        else if item.checked.Some? then Some(CheckBlock(item.checked.value, content.value, nested.value))
        else if ordered then Some(NumberedBlock(None, content.value, nested.value))
        else Some(BulletBlock(content.value, nested.value))
  }

  function ItemChildren(rest: seq<Node>): Option<seq<Block>>
    decreases rest
  {
    if rest == [] then Some([])
    else
      var tail := ItemChildren(rest[1..]);
      if tail.None? then None
      else if IsEmptyMarker(rest[0]) then Some([ParagraphBlock([], [])] + tail.value)
      else if !rest[0].List? then None
      else Some(NodeToBlocks(rest[0]) + tail.value)
  }

  // ----- blocks -> markdown -----

  function CellAlign(cell: Cell): Option<Align> {
    if cell.AlignedCell? && cell.align != Left then Some(cell.align) else None
  }

  function CellNodes(cells: seq<Cell>): seq<seq<Phrasing>> {
    seq(|cells|, i requires 0 <= i < |cells| => FromInline(cells[i].content))
  }

  function StripSource(source: Source): Source {
    if source.Written? then Written(StripNewlines(source.text)) else source
  }

  /** `blockToNodes`: nested blocks that have no place in markdown follow their parent. */
  function BlockToNodes(block: Block): seq<Node>
    decreases block
  {
    match block
    case ParagraphBlock(content, children) =>
      var phrasing := FromInline(content);
      [if phrasing == [] then Html(Written(EMPTY_MARKER)) else Paragraph(phrasing)] + BlocksToNodes(children)
    case HeadingBlock(level, content, children) => [Heading(level, FromInline(content))] + BlocksToNodes(children)
    case QuoteBlock(content, children) => [Blockquote([Paragraph(FromInline(content))])] + BlocksToNodes(children)
    case DividerBlock(children) => [ThematicBreak] + BlocksToNodes(children)
    case ImageBlock(url, caption, children) =>
      [Paragraph([Image(url, Some(caption), None)])] + BlocksToNodes(children)
    case PageLinkBlock(path, title, target, children) =>
      var page := if target != "" then target else if title != "" then title else path;
      [Paragraph([WikiNode(page, Some(page))])] + BlocksToNodes(children)
    case TableBlock(cells, children) =>
      var align := if cells == [] then [] else
                   seq(|cells[0]|, i requires 0 <= i < |cells[0]| => CellAlign(cells[0][i]));
      [Table(align, seq(|cells|, i requires 0 <= i < |cells| => CellNodes(cells[i])))] + BlocksToNodes(children)
    case TableViewBlock(file, embed, children) =>
      [if embed && IsCsv(file) && '[' !in file && ']' !in file && '\n' !in file
       then Paragraph([Embed(file)]) else TableFence(file)] + BlocksToNodes(children)
    case ToggleBlock(content, children) =>
      [Callout("toggle", Some(true), FromInline(content), MergeLists(BlocksToNodes(children)))]
    case CalloutBlock(kind, fold, content, children) =>
      var folded := if fold == "-" then Some(true) else if fold == "+" then Some(false) else None;
      [Callout(if kind != "" then kind else "note", folded, FromInline(content), MergeLists(BlocksToNodes(children)))]
    case BulletBlock(_, _) => [List(false, None, false, [ListItemOf(block)])]
    case CheckBlock(_, _, _) => [List(false, None, false, [ListItemOf(block)])]
    case NumberedBlock(start, _, _) =>
      [List(true, Some(if start.Some? then start.value else 1), false, [ListItemOf(block)])]
    case RawBlock(source, children) => [Html(StripSource(source))] + BlocksToNodes(children)
  }

  /** `blocksToNodes`. */
  function BlocksToNodes(blocks: seq<Block>): seq<Node>
    decreases blocks
  {
    if blocks == [] then [] else BlockToNodes(blocks[0]) + BlocksToNodes(blocks[1..])
  }

  /** `listItem`. */
  function ListItemOf(block: Block): ListItem
    requires block.BulletBlock? || block.CheckBlock? || block.NumberedBlock?
    decreases block, 0
  {
    var phrasing := FromInline(block.content);
    ListItem(false, if block.CheckBlock? then Some(block.checked) else None,
             (if phrasing != [] then [Paragraph(phrasing)] else []) + MergeLists(BlocksToNodes(block.children)))
  }

  predicate Mergeable(prev: Node, node: Node) {
    prev.List? && node.List? && prev.ordered == node.ordered && !prev.spread && !node.spread
  }

  /** `mergeLists`, one node at a time. */
  function MergeNode(out: seq<Node>, node: Node): seq<Node> {
    if out != [] && Mergeable(out[|out| - 1], node)
    then out[..|out| - 1] + [out[|out| - 1].(items := out[|out| - 1].items + node.items)]
    else out + [node]
  }

  function MergeInto(out: seq<Node>, nodes: seq<Node>): seq<Node>
    decreases |nodes|
  {
    if nodes == [] then out else MergeInto(MergeNode(out, nodes[0]), nodes[1..])
  }

  function MergeLists(nodes: seq<Node>): seq<Node> {
    MergeInto([], nodes)
  }

  /** To blocks and back, up to the final printing. */
  function RoundTrip(nodes: seq<Node>): seq<Node> {
    MergeLists(BlocksToNodes(NodesToBlocks(nodes)))
  }
}
