/** mdast phrasing content <-> BlockNote inline content (packages/md-convert/src/inline.ts).

    Inline content is flat and carries a set of styles per text run. Phrasing content is a
    tree whose wrappers carry the styles. `ToInline` flattens a tree, `FromInline` rebuilds one. */
module Inline {
  import opened Common

  // ----- data -----

  datatype Style = Strike | Italic | Bold | Code

  /** A set of styles. A missing key and a false key are the same here, as in `sameStyles`. */
  datatype Styles = Styles(strike: bool, italic: bool, bold: bool, code: bool) {

    predicate Has(s: Style) {
      match s
      case Strike => strike
      case Italic => italic
      case Bold => bold
      case Code => code
    }

    function With(s: Style): Styles {
      match s
      case Strike => this.(strike := true)
      case Italic => this.(italic := true)
      case Bold => this.(bold := true)
      case Code => this.(code := true)
    }

    function Without(s: Style): Styles {
      match s
      case Strike => this.(strike := false)
      case Italic => this.(italic := false)
      case Bold => this.(bold := false)
      case Code => this.(code := false)
    }

    function Union(that: Styles): Styles {
      Styles(strike || that.strike, italic || that.italic, bold || that.bold, code || that.code)
    }

    /** The active styles in the fixed order strike, italic, bold, code. */
    function Active(): seq<Style> {
      (if strike then [Strike] else []) + (if italic then [Italic] else []) +
      (if bold then [Bold] else []) + (if code then [Code] else [])
    }
  }

  const Plain := Styles(false, false, false, false)

  datatype Inline =
    | Text(text: string, styles: Styles)
    | Link(href: string, content: seq<Inline>)
    | WikiLink(target: string, alias: string)

  /** A piece of inline content once hard breaks are explicit. */
  datatype Atom = Item(item: Inline) | HardBreak

  /** mdast phrasing nodes. `Foreign` stands for the kinds `ToInline` refuses: html, images,
      footnote and link references. Images keep their fields for the paragraph case of the
      block converter. */
  datatype Phrasing =
    | TextNode(value: string)
    | Break
    | InlineCode(value: string)
    | Strong(children: seq<Phrasing>)
    | Emphasis(children: seq<Phrasing>)
    | Delete(children: seq<Phrasing>)
    | LinkNode(url: string, linkTitle: Option<string>, children: seq<Phrasing>)
    | Embed(value: string)
    | WikiNode(value: string, data: Option<string>)
    | Image(url: string, alt: Option<string>, imageTitle: Option<string>)
    | Foreign(markup: string)

  predicate TextOnly(items: seq<Inline>) {
    forall i :: 0 <= i < |items| ==> items[i].Text?
  }

  /** The static type of inline content: links hold text runs only. */
  predicate WellTyped(items: seq<Inline>) {
    forall i :: 0 <= i < |items| ==> (items[i].Link? ==> TextOnly(items[i].content))
  }

  predicate TypedAtoms(atoms: seq<Atom>) {
    forall i :: 0 <= i < |atoms| ==> (atoms[i].Item? && atoms[i].item.Link? ==> TextOnly(atoms[i].item.content))
  }

  // ----- mdast -> inline -----

  /** `mergeText` one item at a time: a text run joins the previous run of equal styles. */
  function Push(out: seq<Inline>, item: Inline): seq<Inline> {
    if out != [] && item.Text? && out[|out| - 1].Text? && out[|out| - 1].styles == item.styles
    then out[..|out| - 1] + [Text(out[|out| - 1].text + item.text, item.styles)]
    else out + [item]
  }

  function PushAll(out: seq<Inline>, items: seq<Inline>): seq<Inline>
    decreases |items|
  {
    if items == [] then out else PushAll(Push(out, items[0]), items[1..])
  }

  function MergeText(items: seq<Inline>): seq<Inline> {
    PushAll([], items)
  }

  function WikiAlias(value: string, data: Option<string>): string {
    if data.Some? && data.value != "" && data.value != value then data.value else ""
  }

  function EmbedText(value: string): string {
    "![[" + value + "]]"
  }

  function WalkNode(node: Phrasing, styles: Styles): Option<seq<Inline>>
    decreases node
  {
    match node
    case TextNode(v) => Some([Text(v, styles)])
    case Break => Some([Text("\n", Plain)])
    case InlineCode(v) => Some([Text(v, styles.With(Code))])
    case Strong(children) => Walk(children, styles.With(Bold))
    case Emphasis(children) => Walk(children, styles.With(Italic))
    case Delete(children) => Walk(children, styles.With(Strike))
    case LinkNode(url, title, children) =>
      if title.Some? then None
      else
        var inner := Walk(children, styles);
        if inner.Some? && TextOnly(inner.value) then Some([Link(url, MergeText(inner.value))]) else None
    case Embed(v) => Some([Text(EmbedText(v), styles)])
    case WikiNode(v, data) => Some([WikiLink(v, WikiAlias(v, data))])
    case Image(_, _, _) => None
    case Foreign(_) => None
  }

  function Walk(nodes: seq<Phrasing>, styles: Styles): Option<seq<Inline>>
    decreases nodes
  {
    if nodes == [] then Some([])
    else
      var head := WalkNode(nodes[0], styles);
      var rest := Walk(nodes[1..], styles);
      if head.Some? && rest.Some? then Some(head.value + rest.value) else None
  }

  function ToInline(nodes: seq<Phrasing>): Option<seq<Inline>> {
    var out := Walk(nodes, Plain);
    if out.Some? then Some(MergeText(out.value)) else None
  }

  // ----- inline -> mdast -----

  /** `text.split("\n")`: one more part than there are newlines. */
  function Parts(s: string): (parts: seq<string>)
    ensures |parts| >= 1
  {
    if s == "" then [""]
    else
      var rest := Parts(s[1..]);
      if s[0] == '\n' then [""] + rest else [[s[0]] + rest[0]] + rest[1..]
  }

  function Run(part: string, styles: Styles): seq<Atom> {
    if part == "" then [] else [Item(Text(part, styles))]
  }

  /** The atoms of the parts after the first: each one follows a hard break. */
  function LaterParts(parts: seq<string>, styles: Styles): seq<Atom> {
    if parts == [] then [] else [HardBreak] + Run(parts[0], styles) + LaterParts(parts[1..], styles)
  }

  function SplitItem(item: Inline): seq<Atom> {
    if !item.Text? || '\n' !in item.text then [Item(item)]
    else
      var parts := Parts(item.text);
      Run(parts[0], item.styles) + LaterParts(parts[1..], item.styles)
  }

  function SplitBreaks(items: seq<Inline>): seq<Atom> {
    if items == [] then [] else SplitItem(items[0]) + SplitBreaks(items[1..])
  }

  predicate Bracket(c: char) {
    c == '[' || c == ']' || c == '\n'
  }

  /** What the source's pattern accepts between `![[` and `]]`. */
  predicate EmbedName(name: string) {
    name != "" && forall i :: 0 <= i < |name| ==> !Bracket(name[i])
  }

  /** Length of the longest prefix free of brackets and newlines. */
  function NameLength(s: string): (n: nat)
    ensures n <= |s|
    ensures forall i :: 0 <= i < n ==> !Bracket(s[i])
    ensures n < |s| ==> Bracket(s[n])
  {
    if s == "" || Bracket(s[0]) then 0 else 1 + NameLength(s[1..])
  }

  /** Length of the `![[name]]` at the start of `s`, or 0. */
  function EmbedLength(s: string): (n: nat)
    ensures n <= |s|
    ensures n > 0 ==> n >= 6 && s[..n] == EmbedText(s[3..n - 2])
  {
    if "![[" <= s then
      var n := NameLength(s[3..]);
      if n > 0 && n + 5 <= |s| && s[n + 3] == ']' && s[n + 4] == ']' then n + 5 else 0
    else 0
  }

  /** An embed is found where the text starts with one, and nowhere else. */
  lemma EmbedFound(s: string, name: string)
    ensures EmbedName(name) && EmbedText(name) <= s <==> EmbedLength(s) == |name| + 5 && s[3..|name| + 3] == name
  {
    if EmbedName(name) && EmbedText(name) <= s {
      var rest := s[3..];
      assert forall i :: 0 <= i < |name| ==> rest[i] == EmbedText(name)[i + 3] == name[i];
      assert rest[|name|] == EmbedText(name)[|name| + 3] == ']';
      assert s[|name| + 4] == EmbedText(name)[|name| + 4];
      assert NameLength(rest) == |name|;
      assert "![[" <= s;
    }
  }

  function Literal(value: string): seq<Phrasing> {
    if value == "" then [] else [TextNode(value)]
  }

  /** The embed in `value[at..end]` and the text before it. */
  function EmbedAfter(value: string, last: nat, at: nat, end: nat): seq<Phrasing>
    requires last <= at && at + 5 <= end <= |value|
  {
    Literal(value[last..at]) + [Embed(value[at + 3..end - 2])]
  }

  /** The nodes of `value` from `last` on, when no embed starts in `value[last..at]`. */
  function EmbedsFrom(value: string, last: nat, at: nat): seq<Phrasing>
    requires last <= at <= |value|
    decreases |value| - at
  {
    if at == |value| then Literal(value[last..])
    else
      var n := EmbedLength(value[at..]);
      if n == 0 then EmbedsFrom(value, last, at + 1)
      else EmbedAfter(value, last, at, at + n) + EmbedsFrom(value, at + n, at + n)
  }

  predicate HasEmbed(value: string) {
    exists at :: 0 <= at < |value| && EmbedLength(value[at..]) > 0
  }

  /** `splitEmbeds(value) ?? [text]`. */
  function TextOrEmbeds(value: string): seq<Phrasing> {
    if HasEmbed(value) then EmbedsFrom(value, 0, 0) else [TextNode(value)]
  }

  function Wrapper(style: Style, children: seq<Phrasing>): Phrasing
    requires style != Code
  {
    match style
    case Strike => Delete(children)
    case Italic => Emphasis(children)
    case Bold => Strong(children)
  }

  /** How many leading atoms are text that carries `style`. */
  function RunLength(atoms: seq<Atom>, style: Style): (n: nat)
    ensures n <= |atoms|
    ensures forall i :: 0 <= i < n ==> atoms[i].Item? && atoms[i].item.Text? && atoms[i].item.styles.Has(style)
    ensures n < |atoms| ==> !(atoms[n].Item? && atoms[n].item.Text? && atoms[n].item.styles.Has(style))
  {
    if atoms == [] || !(atoms[0].Item? && atoms[0].item.Text? && atoms[0].item.styles.Has(style)) then 0
    else 1 + RunLength(atoms[1..], style)
  }

  function Peel(run: seq<Atom>, style: Style): (inner: seq<Atom>)
    requires forall i :: 0 <= i < |run| ==> run[i].Item? && run[i].item.Text?
    ensures |inner| == |run|
    ensures forall i :: 0 <= i < |run| ==>
      inner[i] == Item(Text(run[i].item.text, run[i].item.styles.Without(style)))
  {
    seq(|run|, i requires 0 <= i < |run| => Item(Text(run[i].item.text, run[i].item.styles.Without(style))))
  }

  /** Styles still to be wrapped, over all atoms. */
  function StyleTotal(atoms: seq<Atom>): nat {
    if atoms == [] then 0
    else (if atoms[0].Item? && atoms[0].item.Text? then |atoms[0].item.styles.Active()| else 0) + StyleTotal(atoms[1..])
  }

  lemma {:induction false} StyleTotalSplit(a: seq<Atom>, b: seq<Atom>)
    ensures StyleTotal(a + b) == StyleTotal(a) + StyleTotal(b)
  {
    if a == [] {
      assert a + b == b;
    } else {
      assert (a + b)[1..] == a[1..] + b;
      StyleTotalSplit(a[1..], b);
    }
  }

  lemma WithoutShrinks(styles: Styles, style: Style)
    requires styles.Has(style)
    ensures |styles.Without(style).Active()| == |styles.Active()| - 1
  {}

  lemma {:induction false} PeelShrinks(run: seq<Atom>, style: Style)
    requires forall i :: 0 <= i < |run| ==> run[i].Item? && run[i].item.Text? && run[i].item.styles.Has(style)
    ensures StyleTotal(Peel(run, style)) == StyleTotal(run) - |run|
  {
    if run != [] {
      PeelShrinks(run[1..], style);
      WithoutShrinks(run[0].item.styles, style);
      assert Peel(run, style)[1..] == Peel(run[1..], style);
    }
  }

  /** 1 when some atom is a link, so that building a link's own content counts as smaller. */
  ghost function LinkRank(atoms: seq<Atom>): nat {
    if exists i :: 0 <= i < |atoms| && atoms[i].Item? && atoms[i].item.Link? then 1 else 0
  }

  lemma {:induction false} SplitTextOnly(items: seq<Inline>)
    requires TextOnly(items)
    ensures LinkRank(SplitBreaks(items)) == 0
    ensures TypedAtoms(SplitBreaks(items))
    ensures forall i :: 0 <= i < |SplitBreaks(items)| ==>
      SplitBreaks(items)[i].HardBreak? || SplitBreaks(items)[i].item.Text?
  {
    if items != [] {
      SplitTextOnly(items[1..]);
      if '\n' in items[0].text { LaterPartsText(Parts(items[0].text)[1..], items[0].styles); }
    }
  }

  lemma {:induction false} LaterPartsText(parts: seq<string>, styles: Styles)
    ensures forall i :: 0 <= i < |LaterParts(parts, styles)| ==>
      LaterParts(parts, styles)[i].HardBreak? || LaterParts(parts, styles)[i].item.Text?
  {
    if parts != [] { LaterPartsText(parts[1..], styles); }
  }

  lemma {:induction false} SplitTyped(items: seq<Inline>)
    requires WellTyped(items)
    ensures TypedAtoms(SplitBreaks(items))
  {
    if items != [] {
      SplitTyped(items[1..]);
      if items[0].Text? && '\n' in items[0].text { LaterPartsText(Parts(items[0].text)[1..], items[0].styles); }
    }
  }

  lemma {:induction false} RunShrinks(atoms: seq<Atom>, n: nat, style: Style)
    requires 0 < n <= |atoms|
    requires forall i :: 0 <= i < n ==> atoms[i].Item? && atoms[i].item.Text? && atoms[i].item.styles.Has(style)
    ensures StyleTotal(Peel(atoms[..n], style)) < StyleTotal(atoms) && StyleTotal(atoms[n..]) <= StyleTotal(atoms)
    ensures LinkRank(Peel(atoms[..n], style)) == 0 && LinkRank(atoms[n..]) <= LinkRank(atoms)
  {
    StyleTotalSplit(atoms[..n], atoms[n..]);
    assert atoms == atoms[..n] + atoms[n..];
    PeelShrinks(atoms[..n], style);
    LinkRankRest(atoms, n);
  }

  lemma LinkRankRest(atoms: seq<Atom>, n: nat)
    requires n <= |atoms|
    ensures LinkRank(atoms[n..]) <= LinkRank(atoms)
  {
    if i :| 0 <= i < |atoms[n..]| && atoms[n..][i].Item? && atoms[n..][i].item.Link? {
      assert atoms[n + i].Item? && atoms[n + i].item.Link?;
    }
  }

  /** `build`: the first active style of the first atom wraps the longest run that has it. */
  function Build(atoms: seq<Atom>): seq<Phrasing>
    requires TypedAtoms(atoms)
    decreases LinkRank(atoms), StyleTotal(atoms), |atoms|
  {
    if atoms == [] then []
    else
      assert StyleTotal(atoms[1..]) <= StyleTotal(atoms);
      match atoms[0]
      case HardBreak => [Break] + Build(atoms[1..])
      case Item(Link(href, content)) =>
        SplitTextOnly(content);
        [LinkNode(href, None, Build(SplitBreaks(content)))] + Build(atoms[1..])
      case Item(WikiLink(target, alias)) =>
        [WikiNode(target, Some(if alias != "" then alias else target))] + Build(atoms[1..])
      case Item(Text(value, styles)) =>
        var active := styles.Active();
        if active == [] then TextOrEmbeds(value) + Build(atoms[1..])
        else if active[0] == Code then [InlineCode(value)] + Build(atoms[1..])
        else
          var n := RunLength(atoms, active[0]);
          var inner := Peel(atoms[..n], active[0]);
          RunShrinks(atoms, n, active[0]);
          [Wrapper(active[0], Build(inner))] + Build(atoms[n..])
  }

  function FromInline(items: seq<Inline>): seq<Phrasing>
    requires WellTyped(items)
  {
    SplitTyped(items);
    Build(SplitBreaks(items))
  }
}
