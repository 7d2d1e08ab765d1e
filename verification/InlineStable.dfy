/** When splitting the normal form gives back the atoms it was made of, and that one trip through the
    flat form is enough: `FromInline` after `ToInline` is idempotent on every tree whose texts are not
    empty. */
module InlineStable {
  import opened Common
  import opened Inline
  import opened InlineProofs

  // ----- tidy items -----

  predicate NoEmptyText(items: seq<Inline>) {
    forall i :: 0 <= i < |items| && items[i].Text? ==> items[i].text != ""
  }

  /** No two neighbours that `mergeText` would join. */
  predicate Merged(items: seq<Inline>) {
    forall i :: 0 <= i < |items| - 1 ==> Unlike(items, i)
  }

  predicate Unlike(items: seq<Inline>, i: nat)
    requires i + 1 < |items|
  {
    items[i].Text? && items[i + 1].Text? ==> items[i].styles != items[i + 1].styles
  }

  predicate Tidy(items: seq<Inline>) {
    && NoEmptyText(items) && Merged(items)
    && forall i :: 0 <= i < |items| && items[i].Link? ==> NoEmptyText(items[i].content) && Merged(items[i].content)
  }

  predicate NonEmptyNode(node: Phrasing)
    decreases node
  {
    match node
    case TextNode(value) => value != ""
    case InlineCode(value) => value != ""
    case Strong(children) => NonEmptyTree(children)
    case Emphasis(children) => NonEmptyTree(children)
    case Delete(children) => NonEmptyTree(children)
    case LinkNode(_, _, children) => NonEmptyTree(children)
    case _ => true
  }

  predicate NonEmptyTree(nodes: seq<Phrasing>)
    decreases nodes
  {
    nodes == [] || (NonEmptyNode(nodes[0]) && NonEmptyTree(nodes[1..]))
  }

  predicate LinksTidy(items: seq<Inline>) {
    forall i :: 0 <= i < |items| && items[i].Link? ==>
      TextOnly(items[i].content) && NoEmptyText(items[i].content) && Merged(items[i].content)
  }

  lemma MergedAppend(out: seq<Inline>, item: Inline)
    requires Merged(out)
    requires out != [] && item.Text? && out[|out| - 1].Text? ==> out[|out| - 1].styles != item.styles
    ensures Merged(out + [item])
  {
    forall i | 0 <= i < |out| ensures i + 1 < |out + [item]| && Unlike(out + [item], i) {
      if i + 1 < |out| { assert Unlike(out, i); }
    }
  }

  lemma MergedLonger(out: seq<Inline>, text: string)
    requires Merged(out) && out != [] && out[|out| - 1].Text?
    ensures Merged(out[..|out| - 1] + [Text(text, out[|out| - 1].styles)])
  {
    var front := out[..|out| - 1];
    forall i | 0 <= i < |front| - 1 ensures Unlike(front, i) {
      assert Unlike(out, i);
    }
    if |out| > 1 { assert Unlike(out, |out| - 2); }
    MergedAppend(front, Text(text, out[|out| - 1].styles));
  }

  lemma PushMerges(out: seq<Inline>, item: Inline)
    requires Merged(out) && NoEmptyText(out) && LinksTidy(out)
    requires item.Text? ==> item.text != ""
    requires LinksTidy([item])
    ensures Merged(Push(out, item)) && NoEmptyText(Push(out, item)) && LinksTidy(Push(out, item))
    ensures TextOnly(out) && item.Text? ==> TextOnly(Push(out, item))
  {
    assert [item][0] == item;
    if out != [] && item.Text? && out[|out| - 1].Text? && out[|out| - 1].styles == item.styles {
      MergedLonger(out, out[|out| - 1].text + item.text);
    } else {
      MergedAppend(out, item);
    }
  }

  lemma {:induction false} PushAllMerges(out: seq<Inline>, items: seq<Inline>)
    requires Merged(out) && NoEmptyText(out) && LinksTidy(out) && NoEmptyText(items) && LinksTidy(items)
    ensures Merged(PushAll(out, items)) && NoEmptyText(PushAll(out, items)) && LinksTidy(PushAll(out, items))
    ensures TextOnly(out) && TextOnly(items) ==> TextOnly(PushAll(out, items))
    decreases |items|
  {
    if items != [] {
      PushMerges(out, items[0]);
      PushAllMerges(Push(out, items[0]), items[1..]);
    }
  }

  lemma {:induction false} WalkTidy(nodes: seq<Phrasing>, styles: Styles)
    requires NonEmptyTree(nodes) && Walk(nodes, styles).Some?
    ensures NoEmptyText(Walk(nodes, styles).value) && LinksTidy(Walk(nodes, styles).value)
    decreases nodes, 1
  {
    if nodes != [] {
      WalkNodeTidy(nodes[0], styles);
      WalkTidy(nodes[1..], styles);
    }
  }

  lemma {:induction false} WalkNodeTidy(node: Phrasing, styles: Styles)
    requires NonEmptyNode(node) && WalkNode(node, styles).Some?
    ensures NoEmptyText(WalkNode(node, styles).value) && LinksTidy(WalkNode(node, styles).value)
    decreases node, 0
  {
    match node
    case Strong(children) => WalkTidy(children, styles.With(Bold));
    case Emphasis(children) => WalkTidy(children, styles.With(Italic));
    case Delete(children) => WalkTidy(children, styles.With(Strike));
    case LinkNode(_, _, children) =>
      WalkTidy(children, styles);
      PushAllMerges([], Walk(children, styles).value);
    case _ =>
  }

  lemma {:induction false} FlattenedIsTidy(nodes: seq<Phrasing>)
    requires NonEmptyTree(nodes) && ToInline(nodes).Some?
    ensures Tidy(ToInline(nodes).value) && WellTyped(ToInline(nodes).value)
  {
    WalkTidy(nodes, Plain);
    PushAllMerges([], Walk(nodes, Plain).value);
  }

  // ----- tidy atoms -----

  predicate IsText(atom: Atom) {
    atom.Item? && atom.item.Text?
  }

  predicate CleanAtoms(atoms: seq<Atom>) {
    forall i :: 0 <= i < |atoms| && IsText(atoms[i]) ==> atoms[i].item.text != "" && '\n' !in atoms[i].item.text
  }

  predicate Touch(a: Atom, b: Atom) {
    IsText(a) && IsText(b) && a.item.styles == b.item.styles
  }

  predicate Apart(atoms: seq<Atom>, i: nat)
    requires i + 1 < |atoms|
  {
    !Touch(atoms[i], atoms[i + 1])
  }

  predicate Separated(atoms: seq<Atom>) {
    forall i :: 0 <= i < |atoms| - 1 ==> Apart(atoms, i)
  }

  predicate OneStyle(atoms: seq<Atom>, styles: Styles) {
    forall i :: 0 <= i < |atoms| ==> atoms[i].HardBreak? || (IsText(atoms[i]) && atoms[i].item.styles == styles)
  }

  lemma SeparatedJoin(a: seq<Atom>, b: seq<Atom>)
    requires CleanAtoms(a) && CleanAtoms(b) && Separated(a) && Separated(b)
    requires a != [] && b != [] ==> !Touch(a[|a| - 1], b[0])
    ensures CleanAtoms(a + b) && Separated(a + b)
  {
    forall i | 0 <= i < |a + b| - 1 ensures Apart(a + b, i) {
      if i < |a| - 1 { assert Apart(a, i); } else if i >= |a| { assert Apart(b, i - |a|); }
    }
  }

  /** The atoms of one text. */
  predicate FineAtoms(atoms: seq<Atom>, styles: Styles) {
    CleanAtoms(atoms) && Separated(atoms) && OneStyle(atoms, styles)
  }

  lemma BreakBetween(a: seq<Atom>, b: seq<Atom>, styles: Styles)
    requires FineAtoms(a, styles) && FineAtoms(b, styles)
    ensures FineAtoms(a + [HardBreak] + b, styles)
  {
    SeparatedJoin(a, [HardBreak]);
    SeparatedJoin(a + [HardBreak], b);
  }

  lemma {:induction false} TextAtomsSeparated(text: string, styles: Styles)
    ensures FineAtoms(TextAtoms(text, styles), styles) && (text != "" ==> TextAtoms(text, styles) != [])
    decreases |text|
  {
    if '\n' !in text {
      PartsWithoutNewline(text);
      assert Parts(text)[1..] == [];
    } else {
      var k := FirstNewline(text);
      var a, b := text[..k], text[k + 1..];
      assert text == a + "\n" + b;
      TextAtomsAppend(a, b, styles);
      TextAtomsSeparated(a, styles);
      TextAtomsSeparated(b, styles);
      BreakBetween(TextAtoms(a, styles), TextAtoms(b, styles), styles);
    }
  }

  lemma SplitItemSeparated(item: Inline)
    requires item.Text? ==> item.text != ""
    ensures var atoms := SplitItem(item);
      && atoms != [] && CleanAtoms(atoms) && Separated(atoms)
      && (if item.Text? then OneStyle(atoms, item.styles) else atoms == [Item(item)])
  {
    if item.Text? {
      TextAtomsSingle(item.text, item.styles);
      TextAtomsSeparated(item.text, item.styles);
    }
  }

  lemma MergedRest(items: seq<Inline>)
    requires Merged(items) && items != []
    ensures Merged(items[1..])
  {
    forall i | 0 <= i < |items[1..]| - 1 ensures Unlike(items[1..], i) {
      assert Unlike(items, i + 1);
    }
  }

  lemma {:induction false} SplitSeparated(items: seq<Inline>)
    requires NoEmptyText(items) && Merged(items)
    ensures CleanAtoms(SplitBreaks(items)) && Separated(SplitBreaks(items))
    decreases |items|
  {
    if items != [] {
      SplitItemSeparated(items[0]);
      MergedRest(items);
      SplitSeparated(items[1..]);
      if |items| > 1 {
        SplitItemSeparated(items[1]);
        assert Unlike(items, 0);
        var a, b := SplitItem(items[0]), SplitItem(items[1]);
        assert SplitBreaks(items[1..])[0] == b[0];
        assert !Touch(a[|a| - 1], b[0]);
      }
      SeparatedJoin(SplitItem(items[0]), SplitBreaks(items[1..]));
    }
  }

  // ----- splitting the normal form again -----

  function NormalAtom(atom: Atom): Atom {
    if atom.HardBreak? then HardBreak else Item(AtomRun(atom, Plain))
  }

  function NormalAtoms(atoms: seq<Atom>): (normal: seq<Atom>)
    ensures |normal| == |atoms|
    ensures forall i :: 0 <= i < |atoms| ==> normal[i] == NormalAtom(atoms[i])
  {
    if atoms == [] then [] else [NormalAtom(atoms[0])] + NormalAtoms(atoms[1..])
  }

  /** Neighbours the flat form cannot keep apart: texts of one style, or an empty unstyled text
      beside a break. */
  predicate Near(a: Atom, b: Atom) {
    Touch(a, b) || (a.HardBreak? && b == Item(Text("", Plain))) || (a == Item(Text("", Plain)) && b.HardBreak?)
  }

  predicate Far(atoms: seq<Atom>, i: nat)
    requires i + 1 < |atoms|
  {
    !Near(atoms[i], atoms[i + 1])
  }

  predicate AllFar(atoms: seq<Atom>) {
    forall i :: 0 <= i < |atoms| - 1 ==> Far(atoms, i)
  }

  predicate NoNewlines(atoms: seq<Atom>) {
    forall i :: 0 <= i < |atoms| && IsText(atoms[i]) ==> '\n' !in atoms[i].item.text
  }

  lemma {:induction false} SplitNoNewlines(items: seq<Inline>)
    ensures NoNewlines(SplitBreaks(items))
    decreases |items|
  {
    if items != [] {
      if items[0].Text? && items[0].text != "" {
        TextAtomsSingle(items[0].text, items[0].styles);
        TextAtomsSeparated(items[0].text, items[0].styles);
      }
      SplitNoNewlines(items[1..]);
    }
  }

  /** Pushing `atom` adds to the last run without starting a new atom there. */
  predicate Swallows(out: seq<Inline>, atom: Atom) {
    var run := AtomRun(atom, Plain);
    && out != [] && run.Text? && out[|out| - 1].Text? && out[|out| - 1].styles == run.styles
    && var last := out[|out| - 1].text;
      last == "" || (IsText(atom) && (run.text == "" || last[|last| - 1] != '\n'))
  }

  lemma {:induction false} SplitBreaksAppend(a: seq<Inline>, b: seq<Inline>)
    ensures SplitBreaks(a + b) == SplitBreaks(a) + SplitBreaks(b)
    decreases |a|
  {
    if a == [] {
      assert a + b == b;
    } else {
      assert (a + b)[1..] == a[1..] + b;
      SplitBreaksAppend(a[1..], b);
    }
  }

  lemma SplitBreaksOne(item: Inline)
    ensures SplitBreaks([item]) == SplitItem(item)
  {
    assert [item][1..] == [];
  }

  lemma NoAtoms(styles: Styles)
    ensures TextAtoms("", styles) == []
  {
    PartsWithoutNewline("");
    assert Parts("")[1..] == [];
  }

  lemma CleanTextAtom(text: string, styles: Styles)
    requires text != "" && '\n' !in text
    ensures TextAtoms(text, styles) == [Item(Text(text, styles))]
  {
    PartsWithoutNewline(text);
    assert Parts(text)[1..] == [];
  }

  /** Appending a break, or a clean text after a break, appends one atom. */
  lemma SplitItemExtend(text: string, more: string, styles: Styles)
    requires text != "" && more != ""
    requires more == "\n" || ('\n' !in more && text[|text| - 1] == '\n')
    ensures SplitItem(Text(text + more, styles))
         == SplitItem(Text(text, styles)) + [if more == "\n" then HardBreak else Item(Text(more, styles))]
  {
    TextAtomsSingle(text + more, styles);
    TextAtomsSingle(text, styles);
    if more == "\n" {
      ExtendBreak(text, styles);
    } else {
      ExtendClean(text, text[..|text| - 1], more, styles);
    }
  }

  lemma ExtendBreak(text: string, styles: Styles)
    ensures TextAtoms(text + "\n", styles) == TextAtoms(text, styles) + [HardBreak]
  {
    assert text + "\n" == text + "\n" + "";
    TextAtomsAppend(text, "", styles);
    NoAtoms(styles);
  }

  lemma ExtendClean(text: string, front: string, more: string, styles: Styles)
    requires text == front + "\n" && more != "" && '\n' !in more
    ensures TextAtoms(text + more, styles) == TextAtoms(text, styles) + [Item(Text(more, styles))]
  {
    assert text == front + "\n" + "" && text + more == front + "\n" + more;
    TextAtomsAppend(front, more, styles);
    TextAtomsAppend(front, "", styles);
    NoAtoms(styles);
    CleanTextAtom(more, styles);
  }

  lemma {:induction false} PushJoinSplits(front: seq<Inline>, text: string, more: string, styles: Styles)
    requires text != "" && more != ""
    requires more == "\n" || ('\n' !in more && text[|text| - 1] == '\n')
    ensures SplitBreaks(front + [Text(text + more, styles)])
         == SplitBreaks(front + [Text(text, styles)]) + [if more == "\n" then HardBreak else Item(Text(more, styles))]
  {
    SplitBreaksAppend(front, [Text(text, styles)]);
    SplitBreaksOne(Text(text, styles));
    SplitItemExtend(text, more, styles);
    SplitBreaksAppend(front, [Text(text + more, styles)]);
    SplitBreaksOne(Text(text + more, styles));
  }

  lemma {:induction false} PushApartSplits(out: seq<Inline>, atom: Atom)
    requires IsText(atom) ==> '\n' !in atom.item.text
    ensures SplitBreaks(out + [AtomRun(atom, Plain)]) == SplitBreaks(out) + [NormalAtom(atom)]
  {
    SplitBreaksAppend(out, [AtomRun(atom, Plain)]);
    SplitBreaksOne(AtomRun(atom, Plain));
    if atom.HardBreak? { BreakSplits(); }
  }

  lemma {:induction false} PushSplits(out: seq<Inline>, atom: Atom)
    requires !Swallows(out, atom) && (IsText(atom) ==> '\n' !in atom.item.text)
    ensures SplitBreaks(Push(out, AtomRun(atom, Plain))) == SplitBreaks(out) + [NormalAtom(atom)]
  {
    var run := AtomRun(atom, Plain);
    if out != [] && run.Text? && out[|out| - 1].Text? && out[|out| - 1].styles == run.styles {
      var front, last := out[..|out| - 1], out[|out| - 1];
      assert out == front + [Text(last.text, run.styles)];
      assert IsText(atom) ==> run == atom.item;
      PushJoinSplits(front, last.text, run.text, run.styles);
    } else {
      PushApartSplits(out, atom);
    }
  }

  /** A clean text goes on where a text ends in no newline. */
  lemma {:induction false} ExtendTail(text: string, more: string, styles: Styles)
    requires text != "" && text[|text| - 1] != '\n' && '\n' !in more
    ensures |TextAtoms(text + more, styles)| == |TextAtoms(text, styles)|
    decreases |text|
  {
    if '\n' !in text {
      CleanTextAtom(text, styles);
      CleanTextAtom(text + more, styles);
    } else {
      var k := FirstNewline(text);
      var a, b := text[..k], text[k + 1..];
      assert text == a + "\n" + b && text + more == a + "\n" + (b + more);
      TextAtomsAppend(a, b, styles);
      TextAtomsAppend(a, b + more, styles);
      ExtendTail(b, more, styles);
    }
  }

  lemma SplitItemSwallows(text: string, more: string, styles: Styles)
    requires text == "" || more == "" || ('\n' !in more && text[|text| - 1] != '\n')
    requires '\n' in more ==> more == "\n"
    ensures |SplitItem(Text(text + more, styles))| == |SplitItem(Text(text, styles))|
  {
    if text == "" {
      assert text + more == more;
      if more == "\n" {
        TextAtomsSingle(more, styles);
        NoAtoms(styles);
        assert more == "" + "\n" + "";
        TextAtomsAppend("", "", styles);
      }
    } else if more == "" {
      assert text + more == text;
    } else {
      TextAtomsSingle(text, styles);
      TextAtomsSingle(text + more, styles);
      ExtendTail(text, more, styles);
    }
  }

  lemma {:induction false} PushSwallows(out: seq<Inline>, atom: Atom)
    requires Swallows(out, atom) && (IsText(atom) ==> '\n' !in atom.item.text)
    ensures |SplitBreaks(Push(out, AtomRun(atom, Plain)))| == |SplitBreaks(out)|
  {
    var run := AtomRun(atom, Plain);
    var front, last := out[..|out| - 1], out[|out| - 1];
    assert out == front + [last];
    SplitBreaksAppend(front, [last]);
    SplitBreaksOne(last);
    SplitItemSwallows(last.text, run.text, run.styles);
    SplitBreaksAppend(front, [Text(last.text + run.text, run.styles)]);
    SplitBreaksOne(Text(last.text + run.text, run.styles));
  }

  /** After an atom of its own, exactly the near ones are swallowed. */
  lemma PushEnds(out: seq<Inline>, a: Atom, b: Atom)
    requires !Swallows(out, a) && (IsText(a) ==> '\n' !in a.item.text)
    ensures Swallows(Push(out, AtomRun(a, Plain)), b) <==> Near(a, b)
  {
    assert IsText(a) ==> AtomRun(a, Plain) == a.item;
    assert IsText(b) ==> AtomRun(b, Plain) == b.item;
  }

  lemma BreakSplits()
    ensures SplitItem(Text("\n", Plain)) == [HardBreak]
  {
    TextAtomsSingle("\n", Plain);
    assert "\n" == "" + "\n" + "";
    TextAtomsAppend("", "", Plain);
    PartsWithoutNewline("");
    assert TextAtoms("", Plain) == [];
  }

  lemma FarRest(atoms: seq<Atom>, n: nat)
    requires n <= |atoms|
    ensures AllFar(atoms) ==> AllFar(atoms[n..])
    ensures NoNewlines(atoms) ==> NoNewlines(atoms[n..])
  {
    if AllFar(atoms) {
      forall i | 0 <= i < |atoms[n..]| - 1 ensures Far(atoms[n..], i) {
        assert Far(atoms, n + i);
      }
    }
  }

  lemma {:induction false} PushAllFirst(out: seq<Inline>, atoms: seq<Atom>)
    requires atoms != []
    ensures PushAll(out, AtomRuns(atoms, Plain))
         == PushAll(Push(out, AtomRun(atoms[0], Plain)), AtomRuns(atoms[1..], Plain))
  {
    assert AtomRuns(atoms, Plain)[1..] == AtomRuns(atoms[1..], Plain);
  }

  /** No atom is swallowed: neither the first by `out` nor another by the one before. */
  predicate AllStand(out: seq<Inline>, atoms: seq<Atom>) {
    AllFar(atoms) && (atoms != [] ==> !Swallows(out, atoms[0]))
  }

  lemma {:induction false} StandRest(out: seq<Inline>, atoms: seq<Atom>)
    requires atoms != [] && NoNewlines(atoms) && !Swallows(out, atoms[0])
    ensures AllStand(out, atoms) <==> AllStand(Push(out, AtomRun(atoms[0], Plain)), atoms[1..])
  {
    var next := Push(out, AtomRun(atoms[0], Plain));
    if |atoms| > 1 { PushEnds(out, atoms[0], atoms[1]); }
    FarRest(atoms, 1);
    if AllStand(out, atoms) && |atoms| > 1 { assert Far(atoms, 0); }
    if AllStand(next, atoms[1..]) {
      forall i | 0 <= i < |atoms| - 1 ensures Far(atoms, i) {
        if i > 0 { assert Far(atoms[1..], i - 1); }
      }
    }
  }

  lemma {:induction false} PushAllSplits(out: seq<Inline>, atoms: seq<Atom>)
    requires NoNewlines(atoms) && AllStand(out, atoms)
    ensures SplitBreaks(PushAll(out, AtomRuns(atoms, Plain))) == SplitBreaks(out) + NormalAtoms(atoms)
    decreases |atoms|
  {
    if atoms != [] {
      StandRest(out, atoms);
      FarRest(atoms, 1);
      PushAllSplits(Push(out, AtomRun(atoms[0], Plain)), atoms[1..]);
      PushFirstSplits(out, atoms);
    }
  }

  lemma {:induction false} PushFirstSplits(out: seq<Inline>, atoms: seq<Atom>)
    requires NoNewlines(atoms) && atoms != [] && !Swallows(out, atoms[0])
    requires var next := Push(out, AtomRun(atoms[0], Plain));
      SplitBreaks(PushAll(next, AtomRuns(atoms[1..], Plain))) == SplitBreaks(next) + NormalAtoms(atoms[1..])
    ensures SplitBreaks(PushAll(out, AtomRuns(atoms, Plain))) == SplitBreaks(out) + NormalAtoms(atoms)
  {
    PushSplits(out, atoms[0]);
    PushAllFirst(out, atoms);
    NormalFirst(SplitBreaks(out), atoms);
  }

  /** Every atom makes at most one, and some atom none if one is swallowed. */
  lemma {:induction false} PushAllCount(out: seq<Inline>, atoms: seq<Atom>)
    requires NoNewlines(atoms)
    ensures var count := |SplitBreaks(PushAll(out, AtomRuns(atoms, Plain)))|;
      count <= |SplitBreaks(out)| + |atoms| && (count == |SplitBreaks(out)| + |atoms| ==> AllStand(out, atoms))
    decreases |atoms|
  {
    if atoms != [] {
      FarRest(atoms, 1);
      PushAllFirst(out, atoms);
      PushAllCount(Push(out, AtomRun(atoms[0], Plain)), atoms[1..]);
      if Swallows(out, atoms[0]) {
        PushSwallows(out, atoms[0]);
      } else {
        PushSplits(out, atoms[0]);
        StandRest(out, atoms);
      }
    }
  }

  lemma {:induction false} NormalFirst(before: seq<Atom>, atoms: seq<Atom>)
    requires atoms != []
    ensures before + NormalAtoms(atoms) == before + [NormalAtom(atoms[0])] + NormalAtoms(atoms[1..])
  {
    assert NormalAtoms(atoms) == [NormalAtom(atoms[0])] + NormalAtoms(atoms[1..]);
  }

  /** Splitting the normal form gives back the atoms it was made of exactly when no two
      neighbours among them are near; otherwise it gives fewer. */
  lemma {:induction false} SplitOfNormal(items: seq<Inline>)
    ensures SplitBreaks(Normal(items)) == NormalAtoms(SplitBreaks(items)) <==> AllFar(SplitBreaks(items))
    ensures |SplitBreaks(Normal(items))| == |SplitBreaks(items)| <==> AllFar(SplitBreaks(items))
    ensures |SplitBreaks(Normal(items))| <= |SplitBreaks(items)|
  {
    SplitNormal(items, []);
    SplitNoNewlines(items);
    PushAllCount([], SplitBreaks(items));
    if AllFar(SplitBreaks(items)) { PushAllSplits([], SplitBreaks(items)); }
  }

  lemma SeparatedAreFar(atoms: seq<Atom>)
    requires CleanAtoms(atoms) && Separated(atoms)
    ensures AllFar(atoms)
  {
    forall i | 0 <= i < |atoms| - 1 ensures Far(atoms, i) {
      assert Apart(atoms, i);
    }
  }

  // ----- building from normal atoms -----

  predicate LinksStable(atoms: seq<Atom>) {
    forall i :: 0 <= i < |atoms| && atoms[i].Item? && atoms[i].item.Link? ==>
      var content := atoms[i].item.content;
      TextOnly(content) && TextOnly(Normal(content)) && SplitBreaks(Normal(content)) == SplitBreaks(content)
  }

  lemma {:induction false} BuildOfNormal(atoms: seq<Atom>)
    requires TypedAtoms(atoms) && TypedAtoms(NormalAtoms(atoms)) && LinksStable(atoms)
    ensures Build(NormalAtoms(atoms)) == Build(atoms)
    decreases |atoms|
  {
    if atoms != [] {
      var n := HeadLength(atoms);
      HeadOfNormal(atoms);
      assert NormalAtoms(atoms)[n..] == NormalAtoms(atoms[n..]);
      BuildOfNormal(atoms[n..]);
      BuildUnfold(atoms);
      BuildUnfold(NormalAtoms(atoms));
    }
  }

  lemma {:induction false} BuildUnfold(atoms: seq<Atom>)
    requires TypedAtoms(atoms) && atoms != []
    ensures Build(atoms) == BuildHead(atoms) + Build(atoms[HeadLength(atoms)..])
  {}

  lemma {:induction false} HeadOfNormal(atoms: seq<Atom>)
    requires TypedAtoms(atoms) && TypedAtoms(NormalAtoms(atoms)) && LinksStable(atoms) && atoms != []
    ensures HeadLength(NormalAtoms(atoms)) == HeadLength(atoms)
    ensures BuildHead(NormalAtoms(atoms)) == BuildHead(atoms)
  {
    if Wraps(atoms[0]) {
      WrapperOfNormal(atoms);
    } else {
      SameWhenText(atoms[0]);
    }
  }

  lemma SameWhenText(atom: Atom)
    ensures IsText(atom) <==> IsText(NormalAtom(atom))
    ensures IsText(atom) ==> NormalAtom(atom) == atom
  {
    if IsText(atom) { assert Plain.Union(atom.item.styles) == atom.item.styles; }
  }

  lemma {:induction false} WrapperOfNormal(atoms: seq<Atom>)
    requires TypedAtoms(atoms) && TypedAtoms(NormalAtoms(atoms)) && atoms != [] && Wraps(atoms[0])
    ensures HeadLength(NormalAtoms(atoms)) == HeadLength(atoms)
    ensures BuildHead(NormalAtoms(atoms)) == BuildHead(atoms)
  {
    var normal := NormalAtoms(atoms);
    RunOfNormal(atoms, atoms[0].item.styles.Active()[0]);
    SameWhenText(atoms[0]);
    HeadIsWrapper(atoms);
    HeadIsWrapper(normal);
  }

  lemma {:induction false} RunOfNormal(atoms: seq<Atom>, style: Style)
    ensures RunLength(NormalAtoms(atoms), style) == RunLength(atoms, style)
    ensures NormalAtoms(atoms)[..RunLength(atoms, style)] == atoms[..RunLength(atoms, style)]
  {
    var normal := NormalAtoms(atoms);
    forall i | 0 <= i < |atoms|
      ensures IsText(atoms[i]) <==> IsText(normal[i])
      ensures IsText(atoms[i]) ==> normal[i] == atoms[i]
    {
      SameWhenText(atoms[i]);
    }
  }

  lemma {:induction false} TextAtomsUnchanged(atoms: seq<Atom>)
    requires Textual(atoms)
    ensures NormalAtoms(atoms) == atoms
  {
    forall i | 0 <= i < |atoms|
      ensures NormalAtom(atoms[i]) == atoms[i]
    {
      if IsText(atoms[i]) { assert Plain.Union(atoms[i].item.styles) == atoms[i].item.styles; }
    }
  }

  lemma {:induction false} ContentStable(content: seq<Inline>)
    requires TextOnly(content) && NoEmptyText(content) && Merged(content)
    ensures TextOnly(Normal(content)) && SplitBreaks(Normal(content)) == SplitBreaks(content)
  {
    SplitSeparated(content);
    SeparatedAreFar(SplitBreaks(content));
    SplitOfNormal(content);
    SplitTextOnly(content);
    TextAtomsUnchanged(SplitBreaks(content));
    NormalTextOnly(content, []);
  }

  lemma {:induction false} NormalTextOnly(content: seq<Inline>, out: seq<Inline>)
    requires TextOnly(content) && TextOnly(out)
    ensures TextOnly(PushAll(out, AtomRuns(SplitBreaks(content), Plain)))
    ensures TextOnly(Normal(content))
  {
    SplitTextOnly(content);
    PushTextOnly(out, AtomRuns(SplitBreaks(content), Plain));
    PushTextOnly([], AtomRuns(SplitBreaks(content), Plain));
    SplitNormal(content, []);
  }

  lemma {:induction false} PushTextOnly(out: seq<Inline>, items: seq<Inline>)
    requires TextOnly(out) && TextOnly(items)
    ensures TextOnly(PushAll(out, items))
    decreases |items|
  {
    if items != [] { PushTextOnly(Push(out, items[0]), items[1..]); }
  }

  lemma {:induction false} PushTyped(out: seq<Inline>, items: seq<Inline>)
    requires WellTyped(out) && WellTyped(items)
    ensures WellTyped(PushAll(out, items))
    decreases |items|
  {
    if items != [] { PushTyped(Push(out, items[0]), items[1..]); }
  }

  lemma {:induction false} NormalTyped(items: seq<Inline>)
    requires WellTyped(items)
    ensures WellTyped(Normal(items))
    ensures TypedAtoms(NormalAtoms(SplitBreaks(items)))
  {
    SplitTyped(items);
    var atoms := SplitBreaks(items);
    forall i | 0 <= i < |atoms| && atoms[i].Item? && atoms[i].item.Link?
      ensures TextOnly(Normal(atoms[i].item.content))
    {
      NormalTextOnly(atoms[i].item.content, []);
    }
    PushTyped([], AtomRuns(atoms, Plain));
    SplitNormal(items, []);
  }

  lemma {:induction false} SplitKeepsLinks(items: seq<Inline>)
    ensures forall atom :: atom in SplitBreaks(items) && atom.Item? && atom.item.Link? ==> atom.item in items
    decreases |items|
  {
    if items != [] {
      SplitKeepsLinks(items[1..]);
      if items[0].Text? && '\n' in items[0].text { LaterPartsText(Parts(items[0].text)[1..], items[0].styles); }
    }
  }

  /** Rebuilding from the normal form of tidy items builds the same tree. */
  lemma BuildFromNormal(items: seq<Inline>)
    requires WellTyped(items) && Tidy(items)
    ensures WellTyped(Normal(items)) && FromInline(Normal(items)) == FromInline(items)
  {
    NormalTyped(items);
    SplitSeparated(items);
    SeparatedAreFar(SplitBreaks(items));
    SplitOfNormal(items);
    SplitTyped(items);
    SplitTyped(Normal(items));
    SplitKeepsLinks(items);
    var atoms := SplitBreaks(items);
    forall i | 0 <= i < |atoms| && atoms[i].Item? && atoms[i].item.Link?
      ensures var content := atoms[i].item.content;
        TextOnly(content) && TextOnly(Normal(content)) && SplitBreaks(Normal(content)) == SplitBreaks(content)
    {
      ContentStable(atoms[i].item.content);
    }
    BuildOfNormal(atoms);
  }

  /** After one trip through the flat form, a tree no longer changes. */
  lemma {:induction false} Idempotent(nodes: seq<Phrasing>)
    requires NonEmptyTree(nodes) && ToInline(nodes).Some?
    ensures var items := ToInline(nodes).value;
      && WellTyped(items)
      && var once := FromInline(items);
      && ToInline(once).Some? && WellTyped(ToInline(once).value)
      && FromInline(ToInline(once).value) == once
  {
    FlattenedIsTidy(nodes);
    var items := ToInline(nodes).value;
    RoundTrip(items);
    BuildFromNormal(items);
  }
}
