/** The main result about blocks: a document tree comes back unchanged exactly when it is
    `Faithful`, list starts and check states included. */
module BlocksRoundTrip {
  import opened Common
  import opened Inline
  import opened InlineReturn
  import opened Blocks
  import opened BlocksProofs

  // ----- list items -----

  /** What the block of one item turns into: a one-item list, or html for a raw item. A one-item
      list of the right kind holds the item itself just when the item is faithful. */
  predicate ItemTrip(back: Node, ordered: bool, start: Option<int>, item: ListItem, first: bool) {
    && (back.Html? || (back.List? && !back.spread && |back.items| == 1))
    && ((back.List? && back.ordered == ordered && back.items == [item]) <==>
        (FaithfulItem(item) && (ordered ==> item.checked.None?)))
    && (back.List? && back.ordered == ordered ==>
        back.start == if !ordered then None else if first && start.Some? then start else Some(1))
  }

  lemma {:induction false} ItemChildrenAreBlocks(rest: seq<Node>)
    ensures ItemChildren(rest).Some? <==> OnlyLists(rest)
    ensures OnlyLists(rest) ==> ItemChildren(rest).value == NodesToBlocks(rest)
    decreases |rest|
  {
    if rest != [] {
      ItemChildrenAreBlocks(rest[1..]);
      assert OnlyLists(rest) <==> (rest[0].List? || IsEmptyMarker(rest[0])) && OnlyLists(rest[1..]);
    }
  }

  lemma {:induction false} ItemBlocksBack(ordered: bool, start: Option<int>, items: seq<ListItem>, first: bool)
    ensures var back := BlocksToNodes(ItemsToBlocks(ordered, start, items, first));
      && |back| == |items| && ListsAndHtml(back)
      && forall i :: 0 <= i < |items| ==>
        BlockToNodes(ItemToBlock(ordered, start, items[i], first && i == 0)) == [back[i]]
    decreases |items|
  {
    if items != [] {
      ItemBlocksBack(ordered, start, items[1..], false);
      var block := ItemToBlock(ordered, start, items[0], first);
      ItemBlockBack(block);
      FirstBlockBack(block, ItemsToBlocks(ordered, start, items[1..], false));
    }
  }

  lemma {:induction false} ItemBlockBack(block: Block)
    requires block.BulletBlock? || block.CheckBlock? || block.NumberedBlock?
      || (block.RawBlock? && block.children == [])
    ensures |BlockToNodes(block)| == 1 && ListsAndHtml(BlockToNodes(block))
    ensures block.RawBlock? ==> BlockToNodes(block)[0].Html?
  {
    assert BlocksToNodes([]) == [];
  }

  lemma {:induction false} FirstBlockBack(block: Block, rest: seq<Block>)
    requires |BlockToNodes(block)| == 1
    ensures BlocksToNodes([block] + rest) == BlockToNodes(block) + BlocksToNodes(rest)
  {
    assert ([block] + rest)[1..] == rest;
  }

  lemma {:induction false} ListTripsKinds(nodes: seq<Node>)
    requires OnlyLists(nodes)
    ensures ListsAndHtml(Trips(nodes))
    decreases |nodes|
  {
    if nodes != [] {
      TripsFirst(nodes);
      ListTripsKinds(nodes[1..]);
      ListTripKinds(nodes[0]);
    }
  }

  lemma ListTripKinds(node: Node)
    requires node.List? || IsEmptyMarker(node)
    ensures ListsAndHtml(Trip(node))
  {
    if IsEmptyMarker(node) {
      HtmlTrip(node);
      assert NodeToBlocks(node) == [ParagraphBlock([], [])];
      BlocksToNodesOne(ParagraphBlock([], []));
      assert FromInline([]) == [];
    } else if node.spread || (exists i :: 0 <= i < |node.items| && node.items[i].spread) {
      RawTrip(node);
    } else {
      ItemBlocksBack(node.ordered, node.start, node.items, true);
    }
  }

  /** The list item rebuilt from an item's block is that item just when it is faithful. */
  lemma {:induction false} ItemBack(ordered: bool, item: ListItem)
    requires ListItemBlock(ordered, item).Some? && !item.spread
    requires item.children != [] ==>
      (RoundTrip(item.children[1..]) == item.children[1..] <==> Faithful(item.children[1..]))
    ensures ListItemOf(ListItemBlock(ordered, item).value) == item <==> FaithfulItem(item)
  {
    var block := ListItemBlock(ordered, item).value;
    if item.children == [] {
      assert FromInline([]) == [];
      assert BlocksToNodes([]) == [];
    } else {
      var rest := item.children[1..];
      StableExactly(item.children[0].children);
      ItemChildrenAreBlocks(rest);
      ListTripsKinds(rest);
      MergeKeepsKinds([], Trips(rest));
      var content := FromInline(block.content);
      var head := if content != [] then [Paragraph(content)] else [];
      assert ListItemOf(block).children == head + RoundTrip(rest);
      ItemHead(head, RoundTrip(rest), item.children);
    }
  }

  lemma ItemHead(head: seq<Node>, back: seq<Node>, children: seq<Node>)
    requires children != [] && children[0].Paragraph? && ListsAndHtml(back)
    requires |head| <= 1
    ensures head + back == children <==> head == [children[0]] && back == children[1..]
  {
    assert children == [children[0]] + children[1..];
    if head == [] {
      assert head + back == back;
      assert back != [] ==> back[0] != children[0];
    } else {
      assert head == [head[0]];
      assert (head + back)[0] == head[0] && (head + back)[1..] == back;
    }
  }

  lemma {:induction false} ItemTrips(ordered: bool, start: Option<int>, item: ListItem, first: bool, back: Node)
    requires !item.spread
    requires item.children != [] ==>
      (RoundTrip(item.children[1..]) == item.children[1..] <==> Faithful(item.children[1..]))
    requires BlockToNodes(ItemToBlock(ordered, start, item, first)) == [back]
    ensures ItemTrip(back, ordered, start, item, first)
  {
    if ListItemBlock(ordered, item).None? {
      RawItemTrips(ordered, start, item, first, back);
    } else {
      ItemBack(ordered, item);
      MadeItemTrips(ordered, start, item, first, back);
    }
  }

  lemma {:induction false} RawItemTrips(ordered: bool, start: Option<int>, item: ListItem, first: bool, back: Node)
    requires ListItemBlock(ordered, item).None?
    requires BlockToNodes(ItemToBlock(ordered, start, item, first)) == [back]
    ensures ItemTrip(back, ordered, start, item, first)
  {
    ItemBlockBack(ItemToBlock(ordered, start, item, first));
    ItemChildrenAreBlocks(item.children[1..]);
    if item.children[0].Paragraph? { StableExactly(item.children[0].children); }
  }

  lemma {:induction false} ListBlockBack(block: Block, number: Option<int>)
    requires block.BulletBlock? || block.CheckBlock? || block.NumberedBlock?
    requires number == if !block.NumberedBlock? then None else if block.start.Some? then block.start else Some(1)
    ensures BlockToNodes(block) == [List(block.NumberedBlock?, number, false, [ListItemOf(block)])]
  {}

  lemma {:induction false} MadeItemTrips(ordered: bool, start: Option<int>, item: ListItem, first: bool, back: Node)
    requires ListItemBlock(ordered, item).Some?
    requires ListItemOf(ListItemBlock(ordered, item).value) == item <==> FaithfulItem(item)
    requires BlockToNodes(ItemToBlock(ordered, start, item, first)) == [back]
    ensures ItemTrip(back, ordered, start, item, first)
  {
    var made, block := ListItemBlock(ordered, item).value, ItemToBlock(ordered, start, item, first);
    ListBlockBack(block, if !block.NumberedBlock? then None else if block.start.Some? then block.start else Some(1));
    SameItem(made, block, start);
    assert made.NumberedBlock? <==> ordered && item.checked.None?;
  }

  /** A start number does not change the item. */
  lemma {:induction false} SameItem(made: Block, block: Block, start: Option<int>)
    requires made.BulletBlock? || made.CheckBlock? || made.NumberedBlock?
    requires block == made || (made.NumberedBlock? && block == made.(start := start))
    ensures ListItemOf(block) == ListItemOf(made)
  {}

  // ----- what is known about each node -----

  predicate Loose(node: Node)
    requires node.List?
  {
    node.spread || exists i :: 0 <= i < |node.items| && node.items[i].spread
  }

  predicate Known(node: Node) {
    if !node.List? then TripsToOne(node)
    else if Loose(node) then |Trip(node)| == 1 && Trip(node)[0].Html?
    else
      var back := Trip(node);
      && |back| == |node.items|
      && forall i :: 0 <= i < |back| ==> ItemTrip(back[i], node.ordered, node.start, node.items[i], i == 0)
  }

  predicate AllKnown(nodes: seq<Node>) {
    forall i :: 0 <= i < |nodes| ==> Known(nodes[i])
  }

  lemma {:induction false} FaithfulItemsAll(ordered: bool, items: seq<ListItem>)
    ensures FaithfulItems(ordered, items) <==> forall i :: 0 <= i < |items| ==>
      FaithfulItem(items[i]) && !items[i].spread && (ordered ==> items[i].checked.None?)
    decreases |items|
  {
    if items != [] {
      FaithfulItemsAll(ordered, items[1..]);
      forall i | 0 < i < |items| ensures items[i] == items[1..][i - 1] {}
    }
  }

  // ----- faithful trees come back -----

  /** One-item lists of one kind collect into the list that is open. */
  lemma {:induction false} Collect(out: seq<Node>, ordered: bool, start: Option<int>, held: seq<ListItem>,
                                   back: seq<Node>, items: seq<ListItem>)
    requires |back| == |items|
    requires forall i :: 0 <= i < |back| ==>
      back[i].List? && back[i].ordered == ordered && !back[i].spread && back[i].items == [items[i]]
    ensures MergeInto(out + [List(ordered, start, false, held)], back) == out
      + [List(ordered, start, false, held + items)]
    decreases |back|
  {
    if back == [] {
      assert held + items == held;
    } else {
      var open := out + [List(ordered, start, false, held)];
      assert open[..|open| - 1] == out;
      assert MergeNode(open, back[0]) == out + [List(ordered, start, false, held + [items[0]])];
      Collect(out, ordered, start, held + [items[0]], back[1..], items[1..]);
      assert held + [items[0]] + items[1..] == held + items;
    }
  }

  lemma {:induction false} ListReturns(out: seq<Node>, node: Node)
    requires node.List? && Known(node) && FaithfulNode(node)
    requires out != [] ==> !Mergeable(out[|out| - 1], node)
    ensures MergeInto(out, Trip(node)) == out + [node]
  {
    FaithfulItemsAll(node.ordered, node.items);
    var back := Trip(node);
    assert ItemTrip(back[0], node.ordered, node.start, node.items[0], true);
    forall i | 0 <= i < |back|
      ensures back[i].List? && back[i].ordered == node.ordered && !back[i].spread && back[i].items == [node.items[i]]
    {
      assert ItemTrip(back[i], node.ordered, node.start, node.items[i], i == 0);
    }
    ListCollects(out, node, back);
  }

  lemma {:induction false} ListCollects(out: seq<Node>, node: Node, back: seq<Node>)
    requires node.List? && !node.spread && node.items != [] && |back| == |node.items|
    requires forall i :: 0 <= i < |back| ==>
      back[i].List? && back[i].ordered == node.ordered && !back[i].spread && back[i].items == [node.items[i]]
    requires back[0].start == node.start
    requires out != [] ==> !Mergeable(out[|out| - 1], node)
    ensures MergeInto(out, back) == out + [node]
  {
    var first, items := back[0], node.items;
    assert first == List(node.ordered, node.start, false, [items[0]]);
    assert MergeNode(out, first) == out + [first];
    Collect(out, node.ordered, node.start, [items[0]], back[1..], items[1..]);
    assert [items[0]] + items[1..] == items;
  }

  lemma {:induction false} FaithfulReturns(out: seq<Node>, nodes: seq<Node>)
    requires AllKnown(nodes) && Faithful(nodes)
    requires out != [] && nodes != [] ==> !Mergeable(out[|out| - 1], nodes[0])
    ensures MergeInto(out, Trips(nodes)) == out + nodes
    decreases |nodes|
  {
    if nodes != [] {
      var node, rest := nodes[0], nodes[1..];
      TripsFirst(nodes);
      NodeReturns(out, node);
      FaithfulReturns(out + [node], rest);
      Onwards(out, node, Trip(node), Trips(rest), Trips(nodes), rest, nodes);
    }
  }

  /** Merging what one node became, then the rest. */
  lemma {:induction false} Onwards(out: seq<Node>, node: Node, back: seq<Node>, more: seq<Node>, all: seq<Node>,
      rest: seq<Node>, nodes: seq<Node>)
    requires all == back + more && nodes == [node] + rest
    requires MergeInto(out, back) == out + [node] && MergeInto(out + [node], more) == out + [node] + rest
    ensures MergeInto(out, all) == out + nodes
  {
    MergeIntoSplit(out, back, more);
    assert out + [node] + rest == out + ([node] + rest);
  }

  /** A faithful node comes back as it was. */
  lemma {:induction false} NodeReturns(out: seq<Node>, node: Node)
    requires Known(node) && FaithfulNode(node) && (out != [] ==> !Mergeable(out[|out| - 1], node))
    ensures MergeInto(out, Trip(node)) == out + [node]
  {
    if node.List? {
      ListReturns(out, node);
    } else {
      assert Trip(node) == [node];
      MergeOne(out, node);
    }
  }

  lemma {:induction false} MergeOne(out: seq<Node>, node: Node)
    ensures MergeInto(out, [node]) == MergeNode(out, node)
  {
    assert [node][1..] == [];
  }

  // ----- trees that come back are faithful -----

  /** `final` is what `out` becomes when `back` and then `more` are merged into it. */
  predicate Becomes(out: seq<Node>, back: seq<Node>, more: seq<Node>, final: seq<Node>) {
    MergeInto(MergeInto(out, back), more) == final
  }

  lemma {:induction false} OneStays(out: seq<Node>, back: Node, more: seq<Node>, nodes: seq<Node>)
    requires nodes != [] && !back.List?
    requires Becomes(out, [back], more, out + nodes)
    ensures back == nodes[0] && MergeInto(out, [back]) == out + [nodes[0]]
  {
    assert MergeInto(out, [back]) == MergeNode(out, back) == out + [back];
    MergeKeeps(out + [back], more);
    assert (out + nodes)[|out|] == nodes[0];
  }

  predicate OneItemLists(nodes: seq<Node>) {
    forall i :: 0 <= i < |nodes| ==> nodes[i].Html? || (nodes[i].List? && !nodes[i].spread && |nodes[i].items| == 1)
  }

  /** If the output has the open list grown by every node pushed, each of them joined it. */
  lemma {:induction false} AllJoin(out: seq<Node>, open: Node, back: seq<Node>, more: seq<Node>, final: seq<Node>)
    requires open.List? && !open.spread && OneItemLists(back) && Becomes(out + [open], back, more, final)
    requires |out| < |final| && final[|out|].List? && |final[|out|].items| == |open.items| + |back|
    ensures forall i :: 0 <= i < |back| ==> back[i].List? && back[i].ordered == open.ordered
    decreases |back|
  {
    if back != [] {
      if Mergeable(open, back[0]) {
        var grown := open.(items := open.items + back[0].items);
        assert (out + [open])[..|out|] == out;
        assert MergeNode(out + [open], back[0]) == out + [grown];
        AllJoin(out, grown, back[1..], more, final);
      } else {
        Closed(out, open, back, more, final);
      }
    }
  }

  /** A node that does not join the open list closes it for good. */
  lemma {:induction false} Closed(out: seq<Node>, open: Node, back: seq<Node>, more: seq<Node>, final: seq<Node>)
    requires back != [] && !Mergeable(open, back[0]) && Becomes(out + [open], back, more, final)
    ensures |out| < |final| && final[|out|] == open
  {
    var next := MergeNode(out + [open], back[0]);
    assert next == out + [open] + [back[0]];
    MergeKeeps(next, back[1..]);
    MergeKeeps(MergeInto(next, back[1..]), more);
  }

  /** A list that takes in a node stays longer than it was. */
  lemma {:induction false} JoinedGrows(out: seq<Node>, back: seq<Node>, more: seq<Node>, final: seq<Node>)
    requires out != [] && back != [] && OneItemLists(back) && Mergeable(out[|out| - 1], back[0])
    requires Becomes(out, back, more, final)
    ensures |out| <= |final| && final[|out| - 1].List? && |final[|out| - 1].items| > |out[|out| - 1].items|
  {
    var begun := MergeNode(out, back[0]);
    assert begun[|out| - 1].items == out[|out| - 1].items + back[0].items;
    MergeKeeps(begun, back[1..]);
    MergeKeeps(MergeInto(out, back), more);
  }

  lemma {:induction false} BegunStays(out: seq<Node>, back: seq<Node>, more: seq<Node>, final: seq<Node>)
    requires back != [] && Becomes(out, back, more, final)
    requires out != [] ==> !Mergeable(out[|out| - 1], back[0])
    ensures |out| < |final| && Extends(back[0], final[|out|])
  {
    var begun := MergeNode(out, back[0]);
    assert begun == out + [back[0]];
    StaysThrough(out, begun, back[0], back[1..], more, final);
  }

  lemma {:induction false} StaysThrough(out: seq<Node>, begun: seq<Node>, node: Node, back: seq<Node>,
      more: seq<Node>, final: seq<Node>)
    requires begun == out + [node] && Becomes(begun, back, more, final)
    ensures |out| < |final| && Extends(node, final[|out|])
  {
    MergeKeeps(begun, back);
    var middle := MergeInto(begun, back);
    MergeKeeps(middle, more);
    if |middle| - 1 == |out| {
      ExtendsMore(node, middle[|out|], final[|out|]);
    }
  }

  lemma ExtendsMore(a: Node, b: Node, c: Node)
    requires Extends(a, b) && Extends(b, c)
    ensures Extends(a, c)
  {}

  /** The first of the one-item lists opens the list at its place in the output. */
  lemma {:induction false} FirstOpens(out: seq<Node>, back: seq<Node>, more: seq<Node>, nodes: seq<Node>)
    requires nodes != [] && nodes[0].List? && back != [] && OneItemLists(back)
    requires Becomes(out, back, more, out + nodes)
    ensures out != [] ==> !Mergeable(out[|out| - 1], back[0])
    ensures back[0].List? && back[0].ordered == nodes[0].ordered && back[0].start == nodes[0].start && !nodes[0].spread
  {
    assert out != [] ==> (out + nodes)[|out| - 1] == out[|out| - 1];
    assert (out + nodes)[|out|] == nodes[0];
    if out != [] && Mergeable(out[|out| - 1], back[0]) {
      JoinedGrows(out, back, more, out + nodes);
    } else {
      BegunStays(out, back, more, out + nodes);
    }
  }

  lemma {:induction false} ListCameBack(out: seq<Node>, nodes: seq<Node>, more: seq<Node>)
    requires nodes != [] && nodes[0].List? && Known(nodes[0]) && !Loose(nodes[0]) && nodes[0].items != []
    requires Becomes(out, Trip(nodes[0]), more, out + nodes)
    ensures FaithfulNode(nodes[0]) && (out != [] ==> !Mergeable(out[|out| - 1], nodes[0]))
    ensures MergeInto(out, Trip(nodes[0])) == out + [nodes[0]]
  {
    var node := nodes[0];
    var back := Trip(node);
    forall i | 0 <= i < |back|
      ensures back[i].Html? || (back[i].List? && !back[i].spread && |back[i].items| == 1)
    {
      assert ItemTrip(back[i], node.ordered, node.start, node.items[i], i == 0);
    }
    FirstOpens(out, back, more, nodes);
    assert (out + nodes)[|out|] == node;
    assert MergeInto(out + [back[0]], back[1..]) == MergeInto(out, back);
    AllJoin(out, back[0], back[1..], more, out + nodes);
    forall i | 0 <= i < |back|
      ensures back[i].List? && back[i].ordered == node.ordered
    {
      if i > 0 { assert back[1..][i - 1].ordered == back[0].ordered; }
    }
    ItemsCameBack(out, nodes, more);
  }

  lemma {:induction false} ItemsCameBack(out: seq<Node>, nodes: seq<Node>, more: seq<Node>)
    requires nodes != [] && nodes[0].List? && Known(nodes[0]) && !Loose(nodes[0]) && nodes[0].items != []
    requires Becomes(out, Trip(nodes[0]), more, out + nodes)
    requires var back := Trip(nodes[0]);
      && OneItemLists(back)
      && (forall i :: 0 <= i < |back| ==> back[i].List? && back[i].ordered == nodes[0].ordered)
      && back[0].start == nodes[0].start
      && (out != [] ==> !Mergeable(out[|out| - 1], back[0]))
    ensures FaithfulNode(nodes[0]) && (out != [] ==> !Mergeable(out[|out| - 1], nodes[0]))
    ensures MergeInto(out, Trip(nodes[0])) == out + [nodes[0]]
  {
    var node := nodes[0];
    var back := Trip(node);
    var items := seq(|back|, i requires 0 <= i < |back| => back[i].items[0]);
    forall i | 0 <= i < |back| ensures back[i].items == [items[i]] {}
    var list := List(node.ordered, node.start, false, items);
    ListCollects(out, list, back);
    LastStays(out, list, back, more, nodes);
    SameItems(node, back, items);
  }

  /** The list the node became stays as it is, or gains items of one that follows. */
  lemma {:induction false} LastStays(out: seq<Node>, list: Node, back: seq<Node>, more: seq<Node>, nodes: seq<Node>)
    requires nodes != [] && MergeInto(out, back) == out + [list] && Becomes(out, back, more, out + nodes)
    requires list.List? && nodes[0].List? && |list.items| == |nodes[0].items|
    ensures list == nodes[0]
  {
    MergeKeeps(out + [list], more);
    assert (out + nodes)[|out|] == nodes[0];
    assert (out + [list])[|out|] == list;
  }

  lemma {:induction false} SameItems(node: Node, back: seq<Node>, items: seq<ListItem>)
    requires node.List? && Known(node) && !Loose(node) && node.items == items != [] && back == Trip(node)
    requires forall i :: 0 <= i < |back| ==>
      back[i].List? && back[i].ordered == node.ordered && back[i].items == [items[i]]
    requires back[0].start == node.start
    ensures FaithfulNode(node)
  {
    FaithfulItemsAll(node.ordered, node.items);
    forall i | 0 <= i < |items|
      ensures FaithfulItem(node.items[i]) && !node.items[i].spread && (node.ordered ==> node.items[i].checked.None?)
    {
      assert ItemTrip(back[i], node.ordered, node.start, node.items[i], i == 0);
    }
    assert ItemTrip(back[0], node.ordered, node.start, node.items[0], true);
  }

  lemma {:induction false} TripsAreFull(nodes: seq<Node>)
    requires AllKnown(nodes)
    ensures FullLists(Trips(nodes))
    decreases |nodes|
  {
    if nodes != [] {
      TripsFirst(nodes);
      TripsAreFull(nodes[1..]);
      var node := nodes[0];
      if node.List? && !Loose(node) {
        forall i | 0 <= i < |Trip(node)| && Trip(node)[i].List?
          ensures Trip(node)[i].items != []
        {
          assert ItemTrip(Trip(node)[i], node.ordered, node.start, node.items[i], i == 0);
        }
      }
    }
  }

  /** A list without items never comes back: nothing rebuilds it. */
  lemma {:induction false} EmptyListIsLost(out: seq<Node>, nodes: seq<Node>)
    requires AllKnown(nodes) && nodes != [] && nodes[0].List?
    requires MergeInto(out, Trips(nodes)) == out + nodes
    ensures nodes[0].items != []
  {
    TripsAreFull(nodes);
    MergeKeepsFull(out, Trips(nodes), |out|);
    assert (out + nodes)[|out|..] == nodes;
  }

  lemma Shift(out: seq<Node>, nodes: seq<Node>)
    requires nodes != []
    ensures out + nodes == out + [nodes[0]] + nodes[1..]
  {}

  /** The first node is faithful, opens nothing it could join, and the rest came back after it. */
  lemma {:induction false} FirstCameBack(out: seq<Node>, nodes: seq<Node>)
    requires AllKnown(nodes) && nodes != []
    requires MergeInto(out, Trips(nodes)) == out + nodes
    ensures FaithfulNode(nodes[0]) && (out != [] ==> !Mergeable(out[|out| - 1], nodes[0]))
    ensures MergeInto(out + [nodes[0]], Trips(nodes[1..])) == out + [nodes[0]] + nodes[1..]
  {
    var node, rest := nodes[0], nodes[1..];
    TripsFirst(nodes);
    MergeIntoSplit(out, Trip(node), Trips(rest));
    Shift(out, nodes);
    if node.List? { EmptyListIsLost(out, nodes); }
    if !node.List? || Loose(node) {
      SingleCameBack(out, nodes, Trips(rest));
    } else {
      ListCameBack(out, nodes, Trips(rest));
    }
  }

  lemma {:induction false} SingleCameBack(out: seq<Node>, nodes: seq<Node>, more: seq<Node>)
    requires nodes != [] && Known(nodes[0]) && (nodes[0].List? ==> Loose(nodes[0]))
    requires Becomes(out, Trip(nodes[0]), more, out + nodes)
    ensures FaithfulNode(nodes[0]) && !nodes[0].List?
    ensures MergeInto(out, Trip(nodes[0])) == out + [nodes[0]]
  {
    var back := Trip(nodes[0])[0];
    assert Trip(nodes[0]) == [back];
    OneStays(out, back, more, nodes);
  }

  lemma {:induction false} ReturnedIsFaithful(out: seq<Node>, nodes: seq<Node>)
    requires AllKnown(nodes)
    requires MergeInto(out, Trips(nodes)) == out + nodes
    ensures Faithful(nodes)
    ensures out != [] && nodes != [] ==> !Mergeable(out[|out| - 1], nodes[0])
    decreases |nodes|
  {
    if nodes != [] {
      FirstCameBack(out, nodes);
      ReturnedIsFaithful(out + [nodes[0]], nodes[1..]);
    }
  }

  // ----- the theorem -----

  lemma CalloutTrip(node: Node)
    requires node.Callout?
    requires RoundTrip(node.body) == node.body <==> Faithful(node.body)
    ensures TripsToOne(node)
  {
    StableExactly(node.title);
    var content := Flatten(node.title);
    if content.None? {
      RawTrip(node);
    } else {
      var block := NodeToBlocks(node)[0];
      var back := if node.kind == "toggle"
        then Callout("toggle", Some(true), FromInline(content.value), RoundTrip(node.body))
                  else Callout(if node.kind != "" then node.kind else "note", node.folded, FromInline(content.value),
                               RoundTrip(node.body));
      FoldBack(node.folded);
      assert BlockToNodes(block) == [back];
      OneBlock(node, block, back);
    }
  }

  lemma FoldBack(folded: Option<bool>)
    ensures var mark := FoldMark(folded);
      (if mark == "-" then Some(true) else if mark == "+" then Some(false) else None) == folded
  {
    var minus, plus := "-", "+";
    assert minus[0] == '-' && plus[0] == '+';
    assert minus != plus && minus != "" && plus != "";
    match folded
    case None => assert FoldMark(folded) == "";
    case Some(closed) =>
      if closed { assert FoldMark(folded) == minus; } else { assert FoldMark(folded) == plus; }
  }

  lemma {:induction false} KnowNode(node: Node)
    ensures Known(node)
    decreases node
  {
    match node
    case Html(_) => HtmlTrip(node);
    case Heading(_, _) => HeadingTrip(node);
    case Paragraph(_) => ParagraphTrip(node);
    case Blockquote(_) => QuoteTrip(node);
    case Table(_, _) => TableTrip(node);
    case ThematicBreak => SimpleTrip(node);
    case TableFence(_) => SimpleTrip(node);
    case Unmapped(_) => SimpleTrip(node);
    case Callout(_, _, _, body) =>
      RoundTripExactly(body);
      CalloutTrip(node);
    case List(ordered, start, _, items) =>
      if Loose(node) {
        RawTrip(node);
      } else {
        ItemBlocksBack(ordered, start, items, true);
        var back := Trip(node);
        forall i | 0 <= i < |back|
          ensures ItemTrip(back[i], ordered, start, items[i], i == 0)
        {
          if items[i].children != [] { RoundTripExactly(items[i].children[1..]); }
          ItemTrips(ordered, start, items[i], i == 0, back[i]);
        }
      }
  }

  /** For every document tree: it comes back unchanged from blocks if and only if it is faithful. */
  lemma {:induction false} RoundTripExactly(nodes: seq<Node>)
    ensures RoundTrip(nodes) == nodes <==> Faithful(nodes)
    decreases nodes
  {
    forall i | 0 <= i < |nodes|
      ensures Known(nodes[i])
    {
      KnowNode(nodes[i]);
    }
    assert [] + nodes == nodes;
    if Faithful(nodes) { FaithfulReturns([], nodes); }
    if RoundTrip(nodes) == nodes { ReturnedIsFaithful([], nodes); }
  }
}
