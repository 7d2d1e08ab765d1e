/** The loops of blocks.ts, proved against the functions of `Blocks`. */
module BlocksLoops {
  import opened Common
  import opened Inline
  import opened Blocks
  import opened BlocksProofs
  import InlineLoops

  /** `mergeLists`: the items of a list are appended to the previous list in place. */
  method MergeListsLoop(nodes: seq<Node>) returns (out: seq<Node>)
    ensures out == MergeLists(nodes)
  {
    out := [];
    for i := 0 to |nodes|
      invariant MergeInto(out, nodes[i..]) == MergeLists(nodes)
    {
      var node := nodes[i];
      ghost var before := out;
      assert nodes[i..][1..] == nodes[i + 1..];
      if node.List? && out != [] && out[|out| - 1].List? && out[|out| - 1].ordered == node.ordered
         && !out[|out| - 1].spread && !node.spread {
        var prev := out[|out| - 1];
        out := out[|out| - 1 := prev.(items := prev.items + node.items)];
      } else {
        out := out + [node];
      }
      assert out == MergeNode(before, node);
    }
  }

  lemma NodesUnfold(nodes: seq<Node>, i: nat)
    requires i < |nodes|
    ensures NodesToBlocks(nodes[i..]) == NodeToBlocks(nodes[i]) + NodesToBlocks(nodes[i + 1..])
  {
    assert nodes[i..][1..] == nodes[i + 1..];
  }

  /** `nodesToBlocks`. */
  method NodesToBlocksLoop(nodes: seq<Node>) returns (out: seq<Block>)
    ensures out == NodesToBlocks(nodes)
  {
    out := [];
    for i := 0 to |nodes|
      invariant out + NodesToBlocks(nodes[i..]) == NodesToBlocks(nodes)
    {
      NodesUnfold(nodes, i);
      out := out + NodeToBlocks(nodes[i]);
    }
  }

  /** The blocks of the items from `i` on, after those already made. */
  function ItemsFrom(out: seq<Block>, ordered: bool, start: Option<int>, items: seq<ListItem>, i: nat): seq<Block>
    requires i <= |items|
  {
    out + ItemsToBlocks(ordered, start, items[i..], i == 0)
  }

  lemma {:induction false} ItemsUnfold(out: seq<Block>, ordered: bool, start: Option<int>, items: seq<ListItem>, i: nat)
    requires i < |items|
    ensures ItemsFrom(out, ordered, start, items, i)
         == ItemsFrom(out + [ItemToBlock(ordered, start, items[i], i == 0)], ordered, start, items, i + 1)
  {
    assert items[i..][1..] == items[i + 1..];
    var block, rest := ItemToBlock(ordered, start, items[i], i == 0),
      ItemsToBlocks(ordered, start, items[i + 1..], false);
    assert out + ([block] + rest) == out + [block] + rest;
  }

  /** The body of the loop in `listBlocks`. */
  method ListBlock(ordered: bool, start: Option<int>, item: ListItem, index: nat) returns (block: Block)
    ensures block == ItemToBlock(ordered, start, item, index == 0)
  {
    var made := ListItemBlock(ordered, item);
    if made.None? { return RawBlock(Printed(List(ordered, start, false, [item])), []); }
    block := made.value;
    if block.NumberedBlock? && index == 0 && start.Some? && start.value != 1 {
      block := block.(start := start);
    }
  }

  /** `listBlocks`: a loose list stays raw; the first numbered item takes a start other than 1. */
  method ListBlocks(list: Node) returns (out: seq<Block>)
    requires list.List?
    ensures out == NodeToBlocks(list)
  {
    if list.spread || (exists i :: 0 <= i < |list.items| && list.items[i].spread) {
      return [Raw(list)];
    }
    out := TightListBlocks(list.ordered, list.start, list.items);
  }

  method TightListBlocks(ordered: bool, start: Option<int>, items: seq<ListItem>) returns (out: seq<Block>)
    ensures out == ItemsToBlocks(ordered, start, items, true)
  {
    out := [];
    assert items[0..] == items;
    for index := 0 to |items|
      invariant ItemsFrom(out, ordered, start, items, index) == ItemsToBlocks(ordered, start, items, true)
    {
      ItemsUnfold(out, ordered, start, items, index);
      var block := ListBlock(ordered, start, items[index], index);
      out := out + [block];
    }
  }

  predicate Continues(rest: seq<Node>, i: nat, out: seq<Block>)
    requires i <= |rest|
  {
    var tail := ItemChildren(rest[i..]);
    ItemChildren(rest) == if tail.Some? then Some(out + tail.value) else None
  }

  lemma ContinuesStart(rest: seq<Node>)
    ensures Continues(rest, 0, [])
  {
    assert rest[0..] == rest;
    if ItemChildren(rest).Some? { assert [] + ItemChildren(rest).value == ItemChildren(rest).value; }
  }

  lemma {:induction false} ContinuesStep(rest: seq<Node>, i: nat, out: seq<Block>)
    requires i < |rest| && Continues(rest, i, out)
    ensures IsEmptyMarker(rest[i]) ==> Continues(rest, i + 1, out + [ParagraphBlock([], [])])
    ensures rest[i].List? ==> Continues(rest, i + 1, out + NodeToBlocks(rest[i]))
    ensures !IsEmptyMarker(rest[i]) && !rest[i].List? ==> ItemChildren(rest).None?
  {
    assert rest[i..][1..] == rest[i + 1..];
    if IsEmptyMarker(rest[i]) {
      ContinuesWith(rest, i, out, [ParagraphBlock([], [])]);
    } else if rest[i].List? {
      ContinuesWith(rest, i, out, NodeToBlocks(rest[i]));
    }
  }

  lemma ContinuesWith(rest: seq<Node>, i: nat, out: seq<Block>, blocks: seq<Block>)
    requires i < |rest| && Continues(rest, i, out)
    requires var tail := ItemChildren(rest[i + 1..]);
      ItemChildren(rest[i..]) == if tail.Some? then Some(blocks + tail.value) else None
    ensures Continues(rest, i + 1, out + blocks)
  {
    var tail := ItemChildren(rest[i + 1..]);
    if tail.Some? {
      assert out + (blocks + tail.value) == out + blocks + tail.value;
    }
  }

  /** The loop of `listItemBlock` over what follows the paragraph. */
  method NestedBlocks(rest: seq<Node>) returns (children: Option<seq<Block>>)
    ensures children == ItemChildren(rest)
  {
    var out: seq<Block> := [];
    ContinuesStart(rest);
    for i := 0 to |rest|
      invariant Continues(rest, i, out)
    {
      ContinuesStep(rest, i, out);
      if IsEmptyMarker(rest[i]) {
        out := out + [ParagraphBlock([], [])];
      } else if !rest[i].List? {
        return None;
      } else {
        var nested := ListBlocks(rest[i]);
        out := out + nested;
      }
    }
    assert rest[|rest|..] == [] && out + [] == out;
    children := Some(out);
  }

  /** `listItem`: the paragraph, unless it is empty, then the merged nested nodes. */
  method BuildListItem(block: Block) returns (item: ListItem)
    requires block.BulletBlock? || block.CheckBlock? || block.NumberedBlock?
    ensures item == ListItemOf(block)
  {
    SplitTyped(block.content);
    var atoms := InlineLoops.SplitHardBreaks(block.content);
    var phrasing := InlineLoops.BuildTree(atoms);
    var children := if phrasing != [] then [Paragraph(phrasing)] else [];
    var nested := MergeListsLoop(BlocksToNodes(block.children));
    children := PushNodes(children, nested);
    item := ListItem(false, if block.CheckBlock? then Some(block.checked) else None, children);
  }

  method PushNodes(before: seq<Node>, nodes: seq<Node>) returns (out: seq<Node>)
    ensures out == before + nodes
  {
    out := before;
    for i := 0 to |nodes|
      invariant out == before + nodes[..i]
    {
      out := out + [nodes[i]];
    }
  }
}
