/** When a document tree survives the trip to blocks and back: exactly when it is `Faithful`,
    a condition on the tree alone. */
module BlocksProofs {
  import opened Common
  import opened Inline
  import opened InlineReturn
  import opened Blocks

  // ----- the condition -----

  /** A page link keeps no alias, an image no title, a table file no surrounding space. */
  predicate FaithfulParagraph(children: seq<Phrasing>) {
    if |children| == 1 && children[0].WikiNode? then children[0].data == Some(children[0].value)
    else if |children| == 1 && children[0].Image? then children[0].imageTitle.None? && children[0].alt.Some?
    else if |children| == 1 && children[0].Embed? && IsCsv(Trim(children[0].value)) then
      var file := children[0].value;
      Trim(file) == file && '[' !in file && ']' !in file && '\n' !in file
    else children != [] && Stable(children)
  }

  predicate StableRow(row: seq<seq<Phrasing>>) {
    forall c :: 0 <= c < |row| ==> Stable(row[c])
  }

  predicate StableRows(rows: seq<seq<seq<Phrasing>>>) {
    rows == [] || (StableRow(rows[0]) && StableRows(rows[1..]))
  }

  /** No explicit left alignment, one alignment per header cell, stable cells. */
  predicate FaithfulTable(align: seq<Option<Align>>, rows: seq<seq<seq<Phrasing>>>) {
    && Some(Left) !in align
    && StableRows(rows)
    && |align| == (if rows == [] then 0 else |rows[0]|)
  }

  predicate FaithfulNode(node: Node)
    decreases node, 0
  {
    match node
    case Html(source) =>
      if IsEmptyMarker(node) then source == Written(EMPTY_MARKER) else StripSource(source) == source
    case Heading(_, children) => Stable(children)
    case Paragraph(children) => FaithfulParagraph(children)
    case Blockquote(body) => |body| == 1 && body[0].Paragraph? && Stable(body[0].children)
    case Callout(kind, folded, title, body) =>
      Stable(title) && Faithful(body) && (if kind == "toggle" then folded == Some(true) else kind != "")
    case ThematicBreak => true
    case List(ordered, start, spread, items) =>
      !spread && items != [] && ordered == start.Some? && FaithfulItems(ordered, items)
    case Table(align, rows) => FaithfulTable(align, rows)
    case TableFence(_) => true
    case Unmapped(_) => false
  }

  /** Tight items, unchecked in ordered lists. */
  predicate FaithfulItems(ordered: bool, items: seq<ListItem>)
    decreases items
  {
    items == [] ||
    (FaithfulItem(items[0]) && !items[0].spread && (ordered ==> items[0].checked.None?) &&
     FaithfulItems(ordered, items[1..]))
  }

  /** Nothing, or one non-empty stable paragraph followed by faithful lists and empty markers. */
  predicate FaithfulItem(item: ListItem)
    decreases item
  {
    item.children == [] ||
    (item.children[0].Paragraph? && item.children[0].children != [] && Stable(item.children[0].children) &&
     OnlyLists(item.children[1..]) && Faithful(item.children[1..]))
  }

  predicate OnlyLists(nodes: seq<Node>) {
    forall i :: 0 <= i < |nodes| ==> nodes[i].List? || IsEmptyMarker(nodes[i])
  }

  /** Faithful nodes, no two neighbours that are lists of one kind. */
  predicate Faithful(nodes: seq<Node>)
    decreases nodes
  {
    nodes == [] ||
    (FaithfulNode(nodes[0]) && Faithful(nodes[1..]) && (|nodes| > 1 ==> !Mergeable(nodes[0], nodes[1])))
  }

  // ----- merging -----

  lemma {:induction false} MergeIntoSplit(out: seq<Node>, a: seq<Node>, b: seq<Node>)
    ensures MergeInto(out, a + b) == MergeInto(MergeInto(out, a), b)
    decreases |a|
  {
    if a == [] {
      assert a + b == b;
    } else {
      assert (a + b)[1..] == a[1..] + b;
      MergeIntoSplit(MergeNode(out, a[0]), a[1..], b);
    }
  }

  lemma {:induction false} BlocksToNodesSplit(a: seq<Block>, b: seq<Block>)
    ensures BlocksToNodes(a + b) == BlocksToNodes(a) + BlocksToNodes(b)
    decreases |a|
  {
    if a == [] {
      assert a + b == b;
    } else {
      assert (a + b)[1..] == a[1..] + b;
      BlocksToNodesSplit(a[1..], b);
    }
  }

  lemma {:induction false} BlocksToNodesOne(block: Block)
    ensures BlocksToNodes([block]) == BlockToNodes(block)
  {
    assert [block][1..] == [];
    assert BlockToNodes(block) + [] == BlockToNodes(block);
  }

  /** One node there and back, before merging. */
  function Trip(node: Node): seq<Node> {
    BlocksToNodes(NodeToBlocks(node))
  }

  function Trips(nodes: seq<Node>): seq<Node> {
    BlocksToNodes(NodesToBlocks(nodes))
  }

  lemma TripsFirst(nodes: seq<Node>)
    requires nodes != []
    ensures Trips(nodes) == Trip(nodes[0]) + Trips(nodes[1..])
  {
    BlocksToNodesSplit(NodeToBlocks(nodes[0]), NodesToBlocks(nodes[1..]));
  }

  /** What merging may still do to a node: give a list more items. */
  predicate Extends(node: Node, later: Node) {
    node == later ||
    (node.List? && later.List? && later.ordered == node.ordered && later.start == node.start &&
     later.spread == node.spread && node.items <= later.items)
  }

  /** All but the last node of the output are final; the last may only grow. */
  lemma {:induction false} MergeKeeps(out: seq<Node>, nodes: seq<Node>)
    ensures var final := MergeInto(out, nodes);
      && |out| <= |final|
      && (forall i :: 0 <= i < |out| - 1 ==> final[i] == out[i])
      && (out != [] ==> Extends(out[|out| - 1], final[|out| - 1]))
    decreases |nodes|
  {
    if nodes != [] {
      MergeKeeps(MergeNode(out, nodes[0]), nodes[1..]);
    }
  }

  predicate FullLists(nodes: seq<Node>) {
    forall i :: 0 <= i < |nodes| && nodes[i].List? ==> nodes[i].items != []
  }

  lemma {:induction false} MergeKeepsFull(out: seq<Node>, nodes: seq<Node>, from: nat)
    requires from <= |out| && FullLists(out[from..]) && FullLists(nodes)
    ensures from <= |MergeInto(out, nodes)| && FullLists(MergeInto(out, nodes)[from..])
    decreases |nodes|
  {
    if nodes != [] {
      var next := MergeNode(out, nodes[0]);
      forall i | 0 <= i < |next[from..]| && next[from..][i].List?
        ensures next[from..][i].items != []
      {
        if i < |out| - from { assert next[from..][i] == out[from..][i] || i == |out| - from - 1; }
      }
      MergeKeepsFull(next, nodes[1..], from);
    }
  }

  predicate ListsAndHtml(nodes: seq<Node>) {
    forall i :: 0 <= i < |nodes| ==> nodes[i].List? || nodes[i].Html?
  }

  lemma {:induction false} MergeKeepsKinds(out: seq<Node>, nodes: seq<Node>)
    requires ListsAndHtml(out) && ListsAndHtml(nodes)
    ensures ListsAndHtml(MergeInto(out, nodes))
    decreases |nodes|
  {
    if nodes != [] { MergeKeepsKinds(MergeNode(out, nodes[0]), nodes[1..]); }
  }

  // ----- single nodes that are not lists -----

  /** Such a node comes back as one node that is not a list, and as itself just when faithful. */
  predicate TripsToOne(node: Node) {
    var back := Trip(node);
    |back| == 1 && !back[0].List? && (back[0] == node <==> FaithfulNode(node))
  }

  lemma {:induction false} OneBlock(node: Node, block: Block, back: Node)
    requires NodeToBlocks(node) == [block] && BlockToNodes(block) == [back]
    ensures Trip(node) == [back]
  {
    BlocksToNodesOne(block);
  }

  lemma {:induction false} RawTrip(node: Node)
    requires NodeToBlocks(node) == [Raw(node)]
    ensures Trip(node) == [Html(StripSource(Print(node)))]
  {
    assert BlocksToNodes([]) == [];
    assert BlockToNodes(Raw(node)) == [Html(StripSource(Print(node)))];
    OneBlock(node, Raw(node), Html(StripSource(Print(node))));
  }

  lemma HtmlTrip(node: Node)
    requires node.Html?
    ensures TripsToOne(node)
  {
    if IsEmptyMarker(node) {
      var block := ParagraphBlock([], []);
      assert FromInline([]) == [];
      assert BlockToNodes(block) == [Html(Written(EMPTY_MARKER))] + BlocksToNodes([]);
      OneBlock(node, block, Html(Written(EMPTY_MARKER)));
    } else {
      RawTrip(node);
    }
  }

  lemma HeadingTrip(node: Node)
    requires node.Heading?
    ensures TripsToOne(node)
  {
    StableExactly(node.children);
    var content := Flatten(node.children);
    if content.Some? {
      var block := HeadingBlock(node.depth, content.value, []);
      assert BlockToNodes(block) == [Heading(node.depth, FromInline(content.value))] + BlocksToNodes([]);
      OneBlock(node, block, Heading(node.depth, FromInline(content.value)));
    } else {
      RawTrip(node);
    }
  }

  lemma QuoteTrip(node: Node)
    requires node.Blockquote?
    ensures TripsToOne(node)
  {
    if |node.body| == 1 && node.body[0].Paragraph? { StableExactly(node.body[0].children); }
    if |node.body| == 1 && node.body[0].Paragraph? && Flatten(node.body[0].children).Some? {
      var content := Flatten(node.body[0].children).value;
      var back := Blockquote([Paragraph(FromInline(content))]);
      assert BlockToNodes(QuoteBlock(content, [])) == [back] + BlocksToNodes([]);
      OneBlock(node, QuoteBlock(content, []), back);
      assert node.body == [node.body[0]];
      assert back == node <==> back.body[0] == node.body[0];
    } else {
      RawTrip(node);
    }
  }

  lemma ParagraphTrip(node: Node)
    requires node.Paragraph?
    ensures TripsToOne(node)
  {
    var children := node.children;
    StableExactly(children);
    var mapped := ParagraphToBlock(children);
    if mapped.None? {
      RawTrip(node);
    } else {
      var block := mapped.value;
      assert NodeToBlocks(node) == [block];
      var back := BlockToNodes(block)[0];
      assert BlockToNodes(block) == [back] + BlocksToNodes([]);
      OneBlock(node, block, back);
      if |children| == 1 { assert children == [children[0]]; }
    }
  }

  lemma SimpleTrip(node: Node)
    requires node.ThematicBreak? || node.TableFence? || node.Unmapped?
    ensures TripsToOne(node)
  {
    if node.Unmapped? {
      RawTrip(node);
    } else if node.ThematicBreak? {
      assert BlockToNodes(DividerBlock([])) == [ThematicBreak] + BlocksToNodes([]);
      OneBlock(node, DividerBlock([]), ThematicBreak);
    } else {
      assert BlockToNodes(TableViewBlock(node.file, false, [])) == [node] + BlocksToNodes([]);
      OneBlock(node, TableViewBlock(node.file, false, []), node);
    }
  }

  // ----- tables -----

  predicate HasAlign(align: seq<Option<Align>>) {
    exists i :: 0 <= i < |align| && align[i].Some?
  }

  /** What `RowToCells` makes of the cells from `index` on. */
  predicate CellsFrom(cells: Option<seq<Cell>>, row: seq<seq<Phrasing>>, align: seq<Option<Align>>, aligned: bool,
      index: nat) {
    if cells.None? then exists c :: index <= c < |row| && ToInline(row[c]).None?
    else index + |cells.value| == |row| && forall c :: index <= c < |row| ==>
      CellOf(cells.value[c - index], row[c], align, aligned, c)
  }

  lemma {:induction false} RowCells(row: seq<seq<Phrasing>>, align: seq<Option<Align>>, aligned: bool, index: nat)
    requires index <= |row|
    ensures CellsFrom(RowToCells(row, align, aligned, index), row, align, aligned, index)
    decreases |row| - index
  {
    if index < |row| {
      RowCells(row, align, aligned, index + 1);
      FirstCell(row, align, aligned, index, RowToCells(row, align, aligned, index),
        RowToCells(row, align, aligned, index + 1));
    }
  }

  lemma FirstCell(row: seq<seq<Phrasing>>, align: seq<Option<Align>>, aligned: bool, index: nat,
                  cells: Option<seq<Cell>>, rest: Option<seq<Cell>>)
    requires index < |row| && cells == RowToCells(row, align, aligned, index)
      && rest == RowToCells(row, align, aligned, index + 1)
    requires CellsFrom(rest, row, align, aligned, index + 1)
    ensures CellsFrom(cells, row, align, aligned, index)
  {
    if cells.Some? {
      assert cells.value[1..] == rest.value;
      forall c | index <= c < |row| ensures CellOf(cells.value[c - index], row[c], align, aligned, c) {
        if c > index { assert cells.value[c - index] == rest.value[c - index - 1]; }
      }
    }
  }

  predicate CellOf(cell: Cell, nodes: seq<Phrasing>, align: seq<Option<Align>>, aligned: bool, c: nat) {
    && ToInline(nodes) == Some(cell.content)
    && CellAlign(cell) == if aligned && c < |align| && align[c] != Some(Left) then align[c] else None
  }

  lemma {:induction false} RowBack(row: seq<seq<Phrasing>>, align: seq<Option<Align>>, aligned: bool)
    ensures var cells := RowToCells(row, align, aligned, 0);
      if cells.None? then !StableRow(row)
      else |cells.value| == |row| && (CellNodes(cells.value) == row <==> StableRow(row))
  {
    RowCells(row, align, aligned, 0);
    var cells := RowToCells(row, align, aligned, 0);
    forall c | 0 <= c < |row| ensures ComesBack(row[c]) <==> Stable(row[c]) {
      StableExactly(row[c]);
    }
    if cells.Some? {
      forall c | 0 <= c < |row|
        ensures CellNodes(cells.value)[c] == row[c] <==> Stable(row[c])
      {
        assert CellOf(cells.value[c], row[c], align, aligned, c);
      }
    }
  }

  function RowsNodes(cells: seq<seq<Cell>>): seq<seq<seq<Phrasing>>> {
    seq(|cells|, i requires 0 <= i < |cells| => CellNodes(cells[i]))
  }

  lemma {:induction false} RowsBack(rows: seq<seq<seq<Phrasing>>>, align: seq<Option<Align>>, aligned: bool)
    ensures var cells := RowsToCells(rows, align, aligned);
      if cells.None? then !StableRows(rows)
      else |cells.value| == |rows| && (RowsNodes(cells.value) == rows <==> StableRows(rows))
    ensures var cells := RowsToCells(rows, align, aligned);
      cells.Some? && rows != [] ==> RowToCells(rows[0], align, aligned, 0) == Some(cells.value[0])
    decreases |rows|
  {
    if rows != [] {
      RowsBack(rows[1..], align, aligned);
      RowBack(rows[0], align, aligned);
      var head, rest := RowToCells(rows[0], align, aligned, 0), RowsToCells(rows[1..], align, aligned);
      if head.Some? && rest.Some? { RowsNodesFirst(head.value, rest.value, rows); }
    }
  }

  lemma RowsNodesFirst(head: seq<Cell>, rest: seq<seq<Cell>>, rows: seq<seq<seq<Phrasing>>>)
    requires rows != [] && |rest| == |rows| - 1
    ensures RowsNodes([head] + rest) == rows <==> CellNodes(head) == rows[0] && RowsNodes(rest) == rows[1..]
  {
    assert RowsNodes([head] + rest) == [CellNodes(head)] + RowsNodes(rest);
    assert rows == [rows[0]] + rows[1..];
    assert RowsNodes([head] + rest)[1..] == RowsNodes(rest);
  }

  lemma {:induction false} AlignBack(header: seq<seq<Phrasing>>, align: seq<Option<Align>>, cells: seq<Cell>,
      back: seq<Option<Align>>)
    requires Some(Left) !in align
    requires |cells| == |header| && RowToCells(header, align, HasAlign(align), 0) == Some(cells)
    requires |back| == |cells| && forall c :: 0 <= c < |cells| ==> back[c] == CellAlign(cells[c])
    ensures back == align <==> |align| == |header|
  {
    RowCells(header, align, HasAlign(align), 0);
    if |align| == |header| {
      forall c | 0 <= c < |align|
        ensures back[c] == align[c]
      {
        assert CellOf(cells[c], header[c], align, HasAlign(align), c);
      }
    }
  }

  lemma TableTrip(node: Node)
    requires node.Table?
    ensures TripsToOne(node)
  {
    var align, rows := node.align, node.rows;
    assert (exists i :: 0 <= i < |align| && align[i].Some?) == HasAlign(align);
    RowsBack(rows, align, HasAlign(align));
    var mapped := TableToBlock(align, rows);
    if mapped.None? {
      RawTrip(node);
    } else {
      var cells := mapped.value.cells;
      var block := TableBlock(cells, []);
      var back := BlockToNodes(block)[0];
      assert BlockToNodes(block) == [back] + BlocksToNodes([]);
      OneBlock(node, block, back);
      assert back.rows == RowsNodes(cells);
      if rows != [] {
        RowBack(rows[0], align, HasAlign(align));
        AlignBack(rows[0], align, cells[0], back.align);
      }
    }
  }
}
