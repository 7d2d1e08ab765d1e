/** The loops of inline.ts, proved against the functions of `Inline`. */
module InlineLoops {
  import opened Common
  import opened Inline
  import opened InlineProofs

  /** `mergeText`: text is appended to the last run in place when the styles agree. */
  method MergeRuns(items: seq<Inline>) returns (out: seq<Inline>)
    ensures out == MergeText(items)
  {
    out := [];
    for i := 0 to |items|
      invariant PushAll(out, items[i..]) == MergeText(items)
    {
      var item := items[i];
      assert items[i..][1..] == items[i + 1..];
      ghost var before := out;
      if out != [] && item.Text? && out[|out| - 1].Text? && out[|out| - 1].styles == item.styles {
        var prev := out[|out| - 1];
        out := out[|out| - 1 := Text(prev.text + item.text, prev.styles)];
      } else {
        out := out + [item];
      }
      assert out == Push(before, item);
    }
  }

  lemma {:induction false} WalkUnfold(nodes: seq<Phrasing>, i: nat, styles: Styles)
    requires i < |nodes|
    ensures var head, rest := WalkNode(nodes[i], styles), Walk(nodes[i + 1..], styles);
      Walk(nodes[i..], styles) == if head.Some? && rest.Some? then Some(head.value + rest.value) else None
  {
    assert nodes[i..][1..] == nodes[i + 1..];
  }

  /** `walk`: pushes into `out` and stops at the first node inline content cannot express. */
  method WalkInto(nodes: seq<Phrasing>, styles: Styles, before: seq<Inline>) returns (ok: bool, out: seq<Inline>)
    ensures ok == Walk(nodes, styles).Some?
    ensures ok ==> out == before + Walk(nodes, styles).value
    decreases nodes, 1
  {
    out := before;
    ghost var done: seq<Inline> := [];
    assert nodes[0..] == nodes;
    for i := 0 to |nodes|
      invariant out == before + done
      invariant Walk(nodes, styles).Some? == Walk(nodes[i..], styles).Some?
      invariant Walk(nodes, styles).Some? ==> Walk(nodes, styles).value == done + Walk(nodes[i..], styles).value
    {
      WalkUnfold(nodes, i, styles);
      ok, out := WalkNodeInto(nodes[i], styles, out);
      if !ok { return; }
      done := done + WalkNode(nodes[i], styles).value;
    }
    ok := true;
  }

  method WalkNodeInto(node: Phrasing, styles: Styles, before: seq<Inline>) returns (ok: bool, out: seq<Inline>)
    ensures ok == WalkNode(node, styles).Some?
    ensures ok ==> out == before + WalkNode(node, styles).value
    decreases node, 0
  {
    ok, out := true, before;
    match node {
      case TextNode(v) => out := out + [Text(v, styles)];
      case Break => out := out + [Text("\n", Plain)];
      case InlineCode(v) => out := out + [Text(v, styles.With(Code))];
      case Strong(children) => ok, out := WalkInto(children, styles.With(Bold), out);
      case Emphasis(children) => ok, out := WalkInto(children, styles.With(Italic), out);
      case Delete(children) => ok, out := WalkInto(children, styles.With(Strike), out);
      case LinkNode(url, title, children) =>
        if title.Some? { return false, out; }
        var inner;
        ok, inner := WalkInto(children, styles, []);
        assert ok ==> inner == Walk(children, styles).value;
        if !ok || (exists k :: 0 <= k < |inner| && !inner[k].Text?) { return false, out; }
        var content := MergeRuns(inner);
        out := out + [Link(url, content)];
      case Embed(v) => out := out + [Text(EmbedText(v), styles)];
      case WikiNode(v, data) => out := out + [WikiLink(v, WikiAlias(v, data))];
      case Image(_, _, _) => ok := false;
      case Foreign(_) => ok := false;
    }
  }

  /** `splitBreaks`, the parts of one text run. */
  method PushParts(text: string, styles: Styles, before: seq<Atom>) returns (atoms: seq<Atom>)
    ensures atoms == before + TextAtoms(text, styles)
  {
    var parts := Parts(text);
    atoms := before + Run(parts[0], styles);
    for k := 1 to |parts|
      invariant atoms + LaterParts(parts[k..], styles) == before + TextAtoms(text, styles)
    {
      assert parts[k..][1..] == parts[k + 1..];
      atoms := atoms + [HardBreak];
      if parts[k] != "" { atoms := atoms + [Item(Text(parts[k], styles))]; }
    }
  }

  /** The atoms of the items from `i` on, after those already split. */
  function Splits(before: seq<Atom>, items: seq<Inline>, i: nat): seq<Atom>
    requires i <= |items|
  {
    before + SplitBreaks(items[i..])
  }

  lemma SplitUnfold(before: seq<Atom>, items: seq<Inline>, i: nat)
    requires i < |items|
    ensures Splits(before, items, i) == Splits(before + SplitItem(items[i]), items, i + 1)
  {
    assert items[i..][1..] == items[i + 1..];
    assert before + (SplitItem(items[i]) + SplitBreaks(items[i + 1..])) == before + SplitItem(items[i])
      + SplitBreaks(items[i + 1..]);
  }

  method SplitOne(item: Inline, before: seq<Atom>) returns (atoms: seq<Atom>)
    ensures atoms == before + SplitItem(item)
  {
    if !item.Text? || '\n' !in item.text {
      atoms := before + [Item(item)];
    } else {
      atoms := PushParts(item.text, item.styles, before);
    }
  }

  /** `splitBreaks`. */
  method SplitHardBreaks(items: seq<Inline>) returns (atoms: seq<Atom>)
    ensures atoms == SplitBreaks(items)
  {
    atoms := [];
    for i := 0 to |items|
      invariant Splits(atoms, items, i) == SplitBreaks(items)
    {
      SplitUnfold(atoms, items, i);
      atoms := SplitOne(items[i], atoms);
    }
  }

  /** `build`: every turn of the loop consumes one atom, or a run that shares its outer style. */
  method BuildTree(atoms: seq<Atom>) returns (out: seq<Phrasing>)
    requires TypedAtoms(atoms)
    ensures out == Build(atoms)
    decreases LinkRank(atoms), StyleTotal(atoms), |atoms|, 2
  {
    out := [];
    var i := 0;
    NoneBuilt(atoms);
    while i < |atoms|
      invariant 0 <= i <= |atoms|
      invariant Builds(out, atoms, i)
      decreases |atoms| - i
    {
      out, i := TakeTurn(atoms, i, out);
    }
    AllBuilt(out, atoms);
  }

  /** The body of that loop. */
  method TakeTurn(atoms: seq<Atom>, i: nat, before: seq<Phrasing>) returns (out: seq<Phrasing>, next: nat)
    requires TypedAtoms(atoms) && i < |atoms| && Builds(before, atoms, i)
    ensures i < next <= |atoms| && Builds(out, atoms, next)
    decreases LinkRank(atoms), StyleTotal(atoms), |atoms|, 1
  {
    var rest := atoms[i..];
    RestNotLarger(atoms, i, rest);
    var nodes := BuildTurn(rest);
    var consumed := TurnLength(rest);
    TurnUnfolds(before, atoms, i, nodes, consumed);
    out := before + nodes;
    next := i + consumed;
  }

  lemma {:induction false} NoneBuilt(atoms: seq<Atom>)
    requires TypedAtoms(atoms)
    ensures Builds([], atoms, 0)
  {
    assert atoms[0..] == atoms;
    assert [] + Build(atoms) == Build(atoms);
  }

  lemma {:induction false} AllBuilt(out: seq<Phrasing>, atoms: seq<Atom>)
    requires TypedAtoms(atoms) && Builds(out, atoms, |atoms|)
    ensures out == Build(atoms)
  {
    assert atoms[|atoms|..] == [];
    assert out + [] == out;
  }

  /** The nodes so far and those of the atoms from `i` on make up the whole tree. */
  predicate Builds(out: seq<Phrasing>, atoms: seq<Atom>, i: nat)
    requires TypedAtoms(atoms)
  {
    i <= |atoms| && out + Build(atoms[i..]) == Build(atoms)
  }

  lemma TurnUnfolds(out: seq<Phrasing>, atoms: seq<Atom>, i: nat, nodes: seq<Phrasing>, n: nat)
    requires TypedAtoms(atoms) && i < |atoms| && Builds(out, atoms, i)
    requires nodes == BuildHead(atoms[i..]) && n == HeadLength(atoms[i..])
    ensures i + n <= |atoms| && Builds(out + nodes, atoms, i + n)
  {
    var rest := atoms[i..];
    assert rest[n..] == atoms[i + n..];
    assert Build(rest) == nodes + Build(rest[n..]);
    assert out + (nodes + Build(rest[n..])) == out + nodes + Build(rest[n..]);
  }

  /** The `j` loop of `build`, and the single steps around it. */
  method TurnLength(atoms: seq<Atom>) returns (j: nat)
    requires atoms != []
    ensures j == HeadLength(atoms)
  {
    j := 1;
    if Wraps(atoms[0]) {
      var outer := atoms[0].item.styles.Active()[0];
      j := 0;
      while j < |atoms| && atoms[j].Item? && atoms[j].item.Text? && atoms[j].item.styles.Has(outer)
        invariant 0 <= j <= |atoms|
        invariant forall k :: 0 <= k < j ==> atoms[k].Item? && atoms[k].item.Text? && atoms[k].item.styles.Has(outer)
      {
        j := j + 1;
      }
    }
  }

  method BuildTurn(atoms: seq<Atom>) returns (nodes: seq<Phrasing>)
    requires TypedAtoms(atoms) && atoms != []
    ensures nodes == BuildHead(atoms)
    decreases LinkRank(atoms), StyleTotal(atoms), |atoms|, 0
  {
    match atoms[0] {
      case HardBreak => nodes := [Break];
      case Item(Link(href, content)) =>
        var inner := SplitHardBreaks(content);
        SplitTextOnly(content);
        var children := BuildTree(inner);
        nodes := [LinkNode(href, None, children)];
      case Item(WikiLink(target, alias)) =>
        nodes := [WikiNode(target, Some(if alias != "" then alias else target))];
      case Item(Text(value, styles)) =>
        var active := styles.Active();
        if active == [] {
          nodes := TextOrEmbeds(value);
        } else if active[0] == Code {
          nodes := [InlineCode(value)];
        } else {
          var j := TurnLength(atoms);
          HeadInnerSmaller(atoms);
          var children := BuildTree(Peel(atoms[..j], active[0]));
          nodes := [Wrapper(active[0], children)];
        }
    }
  }

  lemma {:induction false} RestNotLarger(atoms: seq<Atom>, i: nat, rest: seq<Atom>)
    requires i <= |atoms| && rest == atoms[i..]
    ensures LinkRank(rest) <= LinkRank(atoms) && StyleTotal(rest) <= StyleTotal(atoms)
    ensures TypedAtoms(atoms) ==> TypedAtoms(rest)
  {
    if i > 0 { RestSmaller(atoms, i); } else { assert atoms[0..] == atoms; }
  }
}
