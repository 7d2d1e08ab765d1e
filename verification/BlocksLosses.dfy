/** Documents the trip changes, one for each way a tree can fail to be faithful although the
    block converter maps all of it. */
module BlocksLosses {
  import opened Common
  import opened Inline
  import opened InlineReturn
  import opened Blocks
  import opened BlocksProofs
  import opened BlocksRoundTrip

  /** `[[A|b]]` alone in a paragraph becomes a page link and loses its alias. */
  lemma AliasAloneIsLost(target: string, alias: string)
    requires target != ""
    ensures RoundTrip([Paragraph([WikiNode(target, Some(alias))])]) == [Paragraph([WikiNode(target, Some(target))])]
  {
    var node := Paragraph([WikiNode(target, Some(alias))]);
    var block := PageLinkBlock("", target, target, []);
    assert NodeToBlocks(node) == [block];
    assert BlockToNodes(block) == [Paragraph([WikiNode(target, Some(target))])] + BlocksToNodes([]);
    OneBlock(node, block, Paragraph([WikiNode(target, Some(target))]));
    SingleNode(node);
  }

  lemma SingleNode(node: Node)
    requires |Trip(node)| == 1
    ensures RoundTrip([node]) == Trip(node)
  {
    TripsFirst([node]);
    assert [node][1..] == [];
    assert Trips([]) == [];
    assert Trips([node]) == Trip(node);
    assert MergeInto([], Trip(node)) == MergeNode([], Trip(node)[0]);
  }

  /** A toggle written open or without a fold mark comes back folded. */
  lemma OpenToggleFolds(folded: Option<bool>, title: seq<Phrasing>, body: seq<Node>)
    requires Stable(title)
    ensures RoundTrip([Callout("toggle", folded, title, body)])
      == [Callout("toggle", Some(true), title, RoundTrip(body))]
  {
    var node := Callout("toggle", folded, title, body);
    StableExactly(title);
    var block := ToggleBlock(Flatten(title).value, NodesToBlocks(body));
    assert NodeToBlocks(node) == [block];
    OneBlock(node, block, Callout("toggle", Some(true), title, RoundTrip(body)));
    SingleNode(node);
  }

  function ListUnlessEmpty(ordered: bool, start: Option<int>, items: seq<ListItem>): seq<Node> {
    if items == [] then [] else [List(ordered, start, false, items)]
  }

  /** A checked item leaves its ordered list: the items before it keep the list and its start, it
      becomes an unordered list of its own, and the items after it are numbered from one. */
  lemma {:induction false} CheckedOrderedItemChanges(start: int, before: seq<ListItem>, item: ListItem,
      after: seq<ListItem>)
    requires FaithfulItems(true, before) && FaithfulItems(true, after)
    requires FaithfulItem(item) && !item.spread && item.checked.Some?
    ensures RoundTrip([List(true, Some(start), false, before + [item] + after)])
         == ListUnlessEmpty(true, Some(start), before) + [List(false, None, false, [item])]
          + ListUnlessEmpty(true, Some(1), after)
  {
    var items := before + [item] + after;
    var node := List(true, Some(start), false, items);
    var back := Trip(node);
    TightItems(before, item, after, items);
    Sides(before, item, after, items);
    KnowNode(node);
    var left, right := back[..|before|], back[|before| + 1..];
    CheckedItemBack(start, items, |before|, back);
    OneSideBack(Some(start), items, 0, left, before, back);
    OneSideBack(Some(start), items, |before| + 1, right, after, back);
    Around(back, |before|);
    CheckedMerges(Some(start), before, item, after, left, back[|before|], right, back);
    OneNode(node, back);
  }

  lemma Sides(before: seq<ListItem>, item: ListItem, after: seq<ListItem>, items: seq<ListItem>)
    requires items == before + [item] + after
    ensures items[..|before|] == before && items[|before|] == item && items[|before| + 1..] == after
  {}

  lemma Around(nodes: seq<Node>, k: nat)
    requires k < |nodes|
    ensures nodes == nodes[..k] + [nodes[k]] + nodes[k + 1..]
  {}

  lemma {:induction false} OneNode(node: Node, back: seq<Node>)
    requires back == Trip(node)
    ensures RoundTrip([node]) == MergeInto([], back)
  {
    TripsFirst([node]);
    assert [node][1..] == [] && Trips([]) == [];
    assert Trips([node]) == back;
  }

  lemma {:induction false} TightItems(
    before: seq<ListItem>, item: ListItem, after: seq<ListItem>, items: seq<ListItem>)
    requires items == before + [item] + after
    requires FaithfulItems(true, before) && FaithfulItems(true, after) && !item.spread
    ensures forall i :: 0 <= i < |items| ==> !items[i].spread
    ensures forall i :: 0 <= i < |before| ==> FaithfulItem(before[i]) && before[i].checked.None?
    ensures forall i :: 0 <= i < |after| ==> FaithfulItem(after[i]) && after[i].checked.None?
  {
    FaithfulItemsAll(true, before);
    FaithfulItemsAll(true, after);
    NoneSpread(before, item, after, items);
  }

  lemma NoneSpread(before: seq<ListItem>, item: ListItem, after: seq<ListItem>, items: seq<ListItem>)
    requires items == before + [item] + after && !item.spread
    requires forall i :: 0 <= i < |before| ==> !before[i].spread
    requires forall i :: 0 <= i < |after| ==> !after[i].spread
    ensures forall i :: 0 <= i < |items| ==> !items[i].spread
  {
    assert forall i :: |before| < i < |items| ==> items[i] == after[i - |before| - 1];
  }

  lemma {:induction false} CheckedItemBack(start: int, items: seq<ListItem>, k: nat, back: seq<Node>)
    requires k < |items| && back == Trip(List(true, Some(start), false, items)) && |back| == |items|
    requires forall i :: 0 <= i < |items| ==> !items[i].spread
    requires FaithfulItem(items[k]) && items[k].checked.Some?
    ensures back[k] == List(false, None, false, [items[k]])
  {
    ItemBlocksBack(true, Some(start), items, true);
    CheckedBlockBack(start, items[k], k == 0);
  }

  lemma {:induction false} CheckedBlockBack(start: int, item: ListItem, first: bool)
    requires FaithfulItem(item) && !item.spread && item.checked.Some?
    ensures BlockToNodes(ItemToBlock(true, Some(start), item, first)) == [List(false, None, false, [item])]
  {
    if item.children != [] {
      RoundTripExactly(item.children[1..]);
      ItemChildrenAreBlocks(item.children[1..]);
      StableExactly(item.children[0].children);
    }
    ItemBack(true, item);
    ListBlockBack(ItemToBlock(true, Some(start), item, first), None);
  }

  /** What the items on one side of the checked one became. */
  predicate SideBack(side: seq<Node>, start: Option<int>, items: seq<ListItem>) {
    && |side| == |items|
    && (forall i :: 0 <= i < |side| ==>
      side[i].List? && side[i].ordered && !side[i].spread && side[i].items == [items[i]])
    && (side != [] ==> side[0].start == start)
  }

  lemma {:induction false} OneSideBack(
    start: Option<int>, items: seq<ListItem>, from: nat, side: seq<Node>, part: seq<ListItem>, back: seq<Node>)
    requires from + |part| <= |items| == |back| && items[from..from + |part|] == part
    requires side == back[from..from + |part|] && start.Some?
    requires forall i :: 0 <= i < |back| ==> ItemTrip(back[i], true, start, items[i], i == 0)
    requires forall i :: 0 <= i < |part| ==> FaithfulItem(part[i]) && part[i].checked.None?
    ensures SideBack(side, if from == 0 then start else Some(1), part)
  {
    forall i | 0 <= i < |side|
      ensures side[i].List? && side[i].ordered && !side[i].spread && side[i].items == [part[i]]
    {
      assert items[from + i] == part[i];
      assert ItemTrip(back[from + i], true, start, items[from + i], from + i == 0);
    }
    if side != [] { assert ItemTrip(back[from], true, start, items[from], from == 0); }
  }

  lemma {:induction false} SideCollects(out: seq<Node>, side: seq<Node>, start: Option<int>, items: seq<ListItem>)
    requires SideBack(side, start, items)
    requires out != [] ==> out[|out| - 1].List? && !out[|out| - 1].ordered
    ensures MergeInto(out, side) == out + ListUnlessEmpty(true, start, items)
  {
    if side != [] {
      ListCollects(out, List(true, start, false, items), side);
    } else {
      assert out + [] == out;
    }
  }

  lemma {:induction false} CheckedMerges(
    start: Option<int>, before: seq<ListItem>, item: ListItem, after: seq<ListItem>,
    left: seq<Node>, middle: Node, right: seq<Node>, back: seq<Node>)
    requires SideBack(left, start, before) && SideBack(right, Some(1), after)
    requires middle == List(false, None, false, [item]) && back == left + [middle] + right
    ensures MergeInto([], back) == ListUnlessEmpty(true, start, before) + [middle]
      + ListUnlessEmpty(true, Some(1), after)
  {
    var first := ListUnlessEmpty(true, start, before);
    SideCollects([], left, start, before);
    assert [] + first == first;
    MergeIntoSplit([], left + [middle], right);
    MergeIntoSplit([], left, [middle]);
    MergeOne(first, middle);
    SideCollects(first + [middle], right, Some(1), after);
  }

  /** Two neighbouring faithful lists of one kind come back as one. */
  lemma {:induction false} NeighboursFuse(a: Node, b: Node)
    requires FaithfulNode(a) && FaithfulNode(b) && Mergeable(a, b)
    ensures RoundTrip([a, b]) == [a.(items := a.items + b.items)]
  {
    KnowNode(a);
    KnowNode(b);
    TripsFirst([a, b]);
    TripsFirst([b]);
    assert [a, b][1..] == [b] && [b][1..] == [];
    assert Trips([]) == [];
    assert Trips([a, b]) == Trip(a) + Trip(b);
    MergeIntoSplit([], Trip(a), Trip(b));
    ListReturns([], a);
    FaithfulItemsAll(b.ordered, b.items);
    var back := Trip(b);
    forall i | 0 <= i < |back|
      ensures back[i].List? && back[i].ordered == a.ordered && !back[i].spread && back[i].items == [b.items[i]]
    {
      assert ItemTrip(back[i], b.ordered, b.start, b.items[i], i == 0);
    }
    Collect([], a.ordered, a.start, a.items, back, b.items);
    assert [] + [a] == [a];
    assert a == List(a.ordered, a.start, false, a.items);
  }
}
