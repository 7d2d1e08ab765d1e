/** Splitting a page into sections for search (apps/daemon/graite/index/chunker.py:107-327).

    Regular expressions are taken as given: a `Line` carries what they say about it. So are the
    sentence splitter, `splitlines` and what a `graite:` fence expands to. */
module ChunkLines {
  import opened Common

  datatype Kind = ParagraphKind | ListKind | TableKind | CodeKind | HeadingKind

  /** An opening fence: its character, its length and the lower-case language after it. */
  datatype Fence = Fence(mark: char, length: nat, language: string)

  /** `run` is set on a line that is nothing but a fence of that character and length. */
  datatype Line = Line(
    text: string, blank: bool, emptyMark: bool, heading: Option<(nat, string)>, fence: Option<Fence>,
    run: Option<(char, nat)>, table: bool, item: bool, indented: bool)

  datatype Block = Block(kind: Kind, lines: seq<string>, start: nat, end: nat, level: nat, heading: string)

  /** Kind and lines of one block inside a `graite:` fence. */
  datatype Piece = Piece(kind: Kind, lines: seq<string>)

  type Expand = (string, seq<string>) -> seq<Piece>

  function Texts(lines: seq<Line>): seq<string> {
    seq(|lines|, i requires 0 <= i < |lines| => lines[i].text)
  }

  predicate Closes(line: Line, fence: Fence) {
    line.run.Some? && line.run.value.0 == fence.mark && line.run.value.1 >= fence.length
  }

  function FenceEnd(lines: seq<Line>, fence: Fence, j: nat): (end: nat)
    requires j <= |lines|
    ensures j <= end <= |lines|
    ensures forall k :: j <= k < end ==> !Closes(lines[k], fence)
    ensures end < |lines| ==> Closes(lines[end], fence)
    decreases |lines| - j
  {
    if j < |lines| && !Closes(lines[j], fence) then FenceEnd(lines, fence, j + 1) else j
  }

  function TableEnd(lines: seq<Line>, j: nat): (end: nat)
    requires j <= |lines|
    ensures j <= end <= |lines|
    decreases |lines| - j
  {
    if j < |lines| && lines[j].table then TableEnd(lines, j + 1) else j
  }

  /** A list goes on over items, indented text, and blank lines before either. */
  predicate ListGoesOn(lines: seq<Line>, j: nat)
    requires j < |lines|
  {
    lines[j].item || (lines[j].indented && !lines[j].blank) ||
    (lines[j].blank && j + 1 < |lines| && (lines[j + 1].item || lines[j + 1].indented))
  }

  function ListEnd(lines: seq<Line>, j: nat): (end: nat)
    requires j <= |lines|
    ensures j <= end <= |lines|
    decreases |lines| - j
  {
    if j < |lines| && ListGoesOn(lines, j) then ListEnd(lines, j + 1) else j
  }

  predicate ParagraphGoesOn(line: Line) {
    !line.blank && line.heading.None? && line.fence.None? && !line.table && !line.item
  }

  function ParagraphEnd(lines: seq<Line>, j: nat): (end: nat)
    requires j <= |lines|
    ensures j <= end <= |lines|
    decreases |lines| - j
  {
    if j < |lines| && ParagraphGoesOn(lines[j]) then ParagraphEnd(lines, j + 1) else j
  }

  predicate IsGraite(language: string) {
    "graite:" <= language
  }

  function FenceBlocks(expand: Expand, fence: Fence, body: seq<string>, start: nat, end: nat): seq<Block> {
    if IsGraite(fence.language) then
      var pieces := expand(fence.language, body);
      seq(|pieces|, i requires 0 <= i < |pieces| => Block(pieces[i].kind, pieces[i].lines, start, end, 0, ""))
    else if body != [] then [Block(CodeKind, body, start, end, 0, "")]
    else []
  }

  /** The line after the stretch that starts at `i`. A closed fence includes its last line. */
  function StretchEnd(lines: seq<Line>, i: nat): (end: nat)
    requires i < |lines|
    ensures i < end <= |lines|
  {
    var line := lines[i];
    if line.fence.Some? then
      var j := FenceEnd(lines, line.fence.value, i + 1);
      if j < |lines| then j + 1 else |lines|
    else if line.blank || line.emptyMark || line.heading.Some? then i + 1
    else if line.table then TableEnd(lines, i + 1)
    else if line.item then ListEnd(lines, i + 1)
    else ParagraphEnd(lines, i + 1)
  }

  /** The blocks of that stretch. Line numbers start at 1. */
  function StretchBlocks(expand: Expand, lines: seq<Line>, i: nat): seq<Block>
    requires i < |lines|
  {
    var line := lines[i];
    if line.fence.Some? then
      var j := FenceEnd(lines, line.fence.value, i + 1);
      FenceBlocks(expand, line.fence.value, Texts(lines[i + 1..j]), i + 1, if j < |lines| then j + 1 else |lines|)
    else if line.blank || line.emptyMark then []
    else if line.heading.Some? then
      [Block(HeadingKind, [line.text], i + 1, i + 1, line.heading.value.0, line.heading.value.1)]
    else
      var end := StretchEnd(lines, i);
      var kind := if line.table then TableKind else if line.item then ListKind else ParagraphKind;
      [Block(kind, Texts(lines[i..end]), i + 1, end, 0, "")]
  }

  /** `_tokenize` from line `i` on. */
  function Tokenize(expand: Expand, lines: seq<Line>, i: nat): seq<Block>
    requires i <= |lines|
    decreases |lines| - i
  {
    if i == |lines| then [] else StretchBlocks(expand, lines, i) + Tokenize(expand, lines, StretchEnd(lines, i))
  }

  // ----- the loops of `_tokenize` -----

  /** `_tokenize`: one stretch per turn, each with its own inner loop. */
  method TokenizeLoop(expand: Expand, lines: seq<Line>) returns (blocks: seq<Block>)
    ensures blocks == Tokenize(expand, lines, 0)
  {
    blocks := [];
    var i, n := 0, |lines|;
    while i < n
      invariant 0 <= i <= n
      invariant blocks + Tokenize(expand, lines, i) == Tokenize(expand, lines, 0)
    {
      ghost var rest := Tokenize(expand, lines, StretchEnd(lines, i));
      var end, more := Stretch(expand, lines, i);
      assert blocks + (more + rest) == blocks + more + rest;
      blocks := blocks + more;
      i := end;
    }
  }

  method Stretch(expand: Expand, lines: seq<Line>, i: nat) returns (end: nat, blocks: seq<Block>)
    requires i < |lines|
    ensures end == StretchEnd(lines, i) && blocks == StretchBlocks(expand, lines, i)
  {
    var line, number := lines[i], i + 1;
    if line.fence.Some? {
      var j := i + 1;
      while j < |lines| && !Closes(lines[j], line.fence.value)
        invariant i + 1 <= j <= |lines|
          && FenceEnd(lines, line.fence.value, j) == FenceEnd(lines, line.fence.value, i + 1)
      {
        j := j + 1;
      }
      var last := (if j < |lines| - 1 then j else |lines| - 1) + 1;
      var after := if j + 1 < |lines| then j + 1 else |lines|;
      return after, FenceBlocks(expand, line.fence.value, Texts(lines[i + 1..j]), number, last);
    }
    if line.blank || line.emptyMark { return i + 1, []; }
    if line.heading.Some? {
      return i + 1, [Block(HeadingKind, [line.text], number, number, line.heading.value.0, line.heading.value.1)];
    }
    var j := i + 1;
    var kind;
    if line.table {
      kind := TableKind;
      while j < |lines| && lines[j].table
        invariant i + 1 <= j <= |lines| && TableEnd(lines, j) == TableEnd(lines, i + 1)
      {
        j := j + 1;
      }
    } else if line.item {
      kind := ListKind;
      while j < |lines| && ListGoesOn(lines, j)
        invariant i + 1 <= j <= |lines| && ListEnd(lines, j) == ListEnd(lines, i + 1)
      {
        j := j + 1;
      }
    } else {
      kind := ParagraphKind;
      while j < |lines| && ParagraphGoesOn(lines[j])
        invariant i + 1 <= j <= |lines| && ParagraphEnd(lines, j) == ParagraphEnd(lines, i + 1)
      {
        j := j + 1;
      }
    }
    end, blocks := j, [Block(kind, Texts(lines[i..j]), number, j, 0, "")];
  }

  // ----- what the blocks cover -----

  /** Block ranges lie inside the body and never go back; only the blocks of one `graite:` fence
      share a range. */
  predicate Ordered(blocks: seq<Block>, from: nat, n: nat) {
    && (forall k :: 0 <= k < |blocks| ==> from < blocks[k].start <= blocks[k].end <= n)
    && (forall j, k :: 0 <= j < k < |blocks| ==> Before(blocks[j], blocks[k]) || SameRange(blocks[j], blocks[k]))
  }

  predicate Before(a: Block, b: Block) {
    a.end < b.start
  }

  predicate SameRange(a: Block, b: Block) {
    a.start == b.start && a.end == b.end
  }

  lemma OrderedJoin(a: seq<Block>, b: seq<Block>, from: nat, middle: nat, n: nat)
    requires from <= middle <= n && Ordered(a, from, middle) && Ordered(b, middle, n)
    ensures Ordered(a + b, from, n)
  {}

  lemma StretchOrdered(expand: Expand, lines: seq<Line>, i: nat)
    requires i < |lines|
    ensures Ordered(StretchBlocks(expand, lines, i), i, StretchEnd(lines, i))
  {}

  lemma {:induction false} TokenizeOrdered(expand: Expand, lines: seq<Line>, i: nat)
    requires i <= |lines|
    ensures Ordered(Tokenize(expand, lines, i), i, |lines|)
    decreases |lines| - i
  {
    if i < |lines| {
      var end := StretchEnd(lines, i);
      StretchOrdered(expand, lines, i);
      TokenizeOrdered(expand, lines, end);
      OrderedJoin(StretchBlocks(expand, lines, i), Tokenize(expand, lines, end), i, end, |lines|);
    }
  }

  predicate NoGraite(lines: seq<Line>) {
    forall i :: 0 <= i < |lines| && lines[i].fence.Some? ==> !IsGraite(lines[i].fence.value.language)
  }

  predicate Increasing(blocks: seq<Block>) {
    forall j, k :: 0 <= j < k < |blocks| ==> Before(blocks[j], blocks[k])
  }

  lemma IncreasingJoin(a: seq<Block>, b: seq<Block>, from: nat, middle: nat, n: nat)
    requires Ordered(a, from, middle) && Ordered(b, middle, n) && |a| <= 1 && Increasing(b)
    ensures Increasing(a + b)
  {}

  /** Without `graite:` fences the ranges are strictly increasing and disjoint. */
  lemma {:induction false} RangesStrictlyIncrease(expand: Expand, lines: seq<Line>, i: nat)
    requires i <= |lines| && NoGraite(lines)
    ensures Increasing(Tokenize(expand, lines, i))
    decreases |lines| - i
  {
    if i < |lines| {
      var end := StretchEnd(lines, i);
      RangesStrictlyIncrease(expand, lines, end);
      StretchOrdered(expand, lines, i);
      TokenizeOrdered(expand, lines, end);
      IncreasingJoin(StretchBlocks(expand, lines, i), Tokenize(expand, lines, end), i, end, |lines|);
    }
  }

  /** The first line of the stretch that holds line `p`. */
  function StretchOf(lines: seq<Line>, i: nat, p: nat): (first: nat)
    requires i <= p < |lines|
    ensures i <= first <= p < StretchEnd(lines, first)
    decreases |lines| - i
  {
    if p < StretchEnd(lines, i) then i else StretchOf(lines, StretchEnd(lines, i), p)
  }

  predicate Covers(block: Block, p: nat) {
    block.start <= p + 1 <= block.end
  }

  /** `own` stands in `blocks` from `at` on, and no other block covers line `p`. */
  predicate Placed(blocks: seq<Block>, own: seq<Block>, at: nat, p: nat) {
    && at + |own| <= |blocks| && blocks[at..at + |own|] == own
    && forall k :: 0 <= k < |blocks| && Covers(blocks[k], p) ==> at <= k < at + |own|
  }

  lemma PlacedLater(front: seq<Block>, rest: seq<Block>, own: seq<Block>, at: nat, p: nat)
    requires Placed(rest, own, at, p) && forall k :: 0 <= k < |front| ==> !Covers(front[k], p)
    ensures Placed(front + rest, own, |front| + at, p)
  {
    assert (front + rest)[|front| + at..|front| + at + |own|] == rest[at..at + |own|];
    forall k | 0 <= k < |front + rest| && Covers((front + rest)[k], p)
      ensures |front| + at <= k < |front| + at + |own|
    {
      assert k >= |front|;
      assert rest[k - |front|] == (front + rest)[k];
    }
  }

  lemma PlacedFirst(own: seq<Block>, rest: seq<Block>, p: nat)
    requires forall k :: 0 <= k < |rest| ==> !Covers(rest[k], p)
    ensures Placed(own + rest, own, 0, p)
  {
    assert (own + rest)[0..|own|] == own;
    forall k | |own| <= k < |own + rest| ensures !Covers((own + rest)[k], p) {
      assert rest[k - |own|] == (own + rest)[k];
    }
  }

  lemma {:induction false} OnlyItsStretch(expand: Expand, lines: seq<Line>, i: nat, p: nat) returns (at: nat)
    requires i <= p < |lines|
    ensures Placed(Tokenize(expand, lines, i), StretchBlocks(expand, lines, StretchOf(lines, i, p)), at, p)
    decreases |lines| - i
  {
    var end := StretchEnd(lines, i);
    var own, rest := StretchBlocks(expand, lines, i), Tokenize(expand, lines, end);
    StretchOrdered(expand, lines, i);
    TokenizeOrdered(expand, lines, end);
    if p < end {
      at := 0;
      PlacedFirst(own, rest, p);
    } else {
      at := OnlyItsStretch(expand, lines, end, p);
      PlacedLater(own, rest, StretchBlocks(expand, lines, StretchOf(lines, end, p)), at, p);
      at := |own| + at;
    }
  }

  lemma TextStretchHolds(expand: Expand, lines: seq<Line>, first: nat, p: nat)
    requires first <= p < |lines| && p < StretchEnd(lines, first) && lines[first].fence.None?
    requires !lines[p].blank && !lines[p].emptyMark
    ensures var own := StretchBlocks(expand, lines, first);
      |own| == 1 && Covers(own[0], p) && p + 1 - own[0].start < |own[0].lines|
        && own[0].lines[p + 1 - own[0].start] == lines[p].text
  {}

  /** Every line that is neither blank nor the empty marker and stands outside fences lies in
      exactly one block, as that block's line with the same text. */
  lemma {:induction false} EachTextLineInOneBlock(expand: Expand, lines: seq<Line>, p: nat)
    requires p < |lines| && !lines[p].blank && !lines[p].emptyMark
    requires lines[StretchOf(lines, 0, p)].fence.None?
    ensures exists k :: 0 <= k < |Tokenize(expand, lines, 0)| && HoldsAlone(Tokenize(expand, lines, 0), k, lines, p)
  {
    var first := StretchOf(lines, 0, p);
    TextStretchHolds(expand, lines, first, p);
    var at := OnlyItsStretch(expand, lines, 0, p);
    PlacedHoldsAlone(Tokenize(expand, lines, 0), StretchBlocks(expand, lines, first), at, lines, p);
  }

  lemma PlacedHoldsAlone(blocks: seq<Block>, own: seq<Block>, at: nat, lines: seq<Line>, p: nat)
    requires p < |lines| && |own| == 1 && Placed(blocks, own, at, p) && Covers(own[0], p)
    requires p + 1 - own[0].start < |own[0].lines| && own[0].lines[p + 1 - own[0].start] == lines[p].text
    ensures at < |blocks| && HoldsAlone(blocks, at, lines, p)
  {
    assert blocks[at..at + 1][0] == own[0];
  }

  predicate HoldsAlone(blocks: seq<Block>, k: nat, lines: seq<Line>, p: nat)
    requires k < |blocks| && p < |lines|
  {
    && Covers(blocks[k], p) && p + 1 - blocks[k].start < |blocks[k].lines|
    && blocks[k].lines[p + 1 - blocks[k].start] == lines[p].text
    && forall j :: 0 <= j < |blocks| && Covers(blocks[j], p) ==> j == k
  }

  // ----- what a block's kind says about its lines -----

  /** The line opens no block of its own kind inside a paragraph: plain text. */
  predicate Plain(line: Line) {
    !line.blank && line.heading.None? && line.fence.None? && !line.table && !line.item
  }

  /** `lines[first..end]` is one table, one list with its indented text and the blank lines inside it, or
      one paragraph, and the line at `end` does not belong to it. */
  predicate WholeBlock(lines: seq<Line>, first: nat, end: nat, kind: Kind)
    requires first < end <= |lines|
  {
    match kind
    case HeadingKind => end == first + 1 && lines[first].heading.Some?
    case TableKind =>
      && lines[first].heading.None?
      && (forall p :: first <= p < end ==> lines[p].table) && (end < |lines| ==> !lines[end].table)
    case ListKind =>
      && lines[first].heading.None? && !lines[first].table && lines[first].item
      && (forall p :: first < p < end ==> InList(lines, p)) && (end < |lines| ==> !InList(lines, end))
    case ParagraphKind =>
      && lines[first].heading.None? && !lines[first].table && !lines[first].item
      && (forall p :: first < p < end ==> Plain(lines[p])) && (end < |lines| ==> !Plain(lines[end]))
    case CodeKind => false
  }

  /** A line a list goes on over: an item, indented text, or an empty line before either. */
  predicate InList(lines: seq<Line>, p: nat)
    requires p < |lines|
  {
    if lines[p].item then true
    else if !lines[p].blank then lines[p].indented
    else p + 1 < |lines| && (lines[p + 1].item || lines[p + 1].indented)
  }

  lemma {:induction false} TableEndsThere(lines: seq<Line>, j: nat)
    requires j <= |lines|
    ensures forall p :: j <= p < TableEnd(lines, j) ==> lines[p].table
    ensures TableEnd(lines, j) < |lines| ==> !lines[TableEnd(lines, j)].table
    decreases |lines| - j
  {
    if j < |lines| && lines[j].table { TableEndsThere(lines, j + 1); }
  }

  lemma {:induction false} ListEndsThere(lines: seq<Line>, j: nat)
    requires j <= |lines|
    ensures forall p :: j <= p < ListEnd(lines, j) ==> InList(lines, p)
    ensures ListEnd(lines, j) < |lines| ==> !InList(lines, ListEnd(lines, j))
    decreases |lines| - j
  {
    if j < |lines| && ListGoesOn(lines, j) { ListEndsThere(lines, j + 1); }
  }

  lemma {:induction false} ParagraphEndsThere(lines: seq<Line>, j: nat)
    requires j <= |lines|
    ensures forall p :: j <= p < ParagraphEnd(lines, j) ==> Plain(lines[p])
    ensures ParagraphEnd(lines, j) < |lines| ==> !Plain(lines[ParagraphEnd(lines, j)])
    decreases |lines| - j
  {
    if j < |lines| && ParagraphGoesOn(lines[j]) { ParagraphEndsThere(lines, j + 1); }
  }

  lemma {:induction false} StretchFits(expand: Expand, lines: seq<Line>, first: nat)
    requires first < |lines| && lines[first].fence.None? && !lines[first].blank && !lines[first].emptyMark
    ensures |StretchBlocks(expand, lines, first)| == 1
    ensures WholeBlock(lines, first, StretchEnd(lines, first), StretchBlocks(expand, lines, first)[0].kind)
  {
    TableEndsThere(lines, first + 1);
    ListEndsThere(lines, first + 1);
    ParagraphEndsThere(lines, first + 1);
  }

  /** A block that starts at line `first` and holds the lines up to `end` word for word. */
  predicate HoldsLines(block: Block, lines: seq<Line>, first: nat, end: nat)
    requires first < end <= |lines|
  {
    block.lines == Texts(lines[first..end]) && block.start == first + 1 && block.end == end
  }

  /** Every line outside fences that is neither blank nor the empty marker lies in one block whose kind
      fits all its lines and which ends only where its kind ends. */
  lemma {:induction false} KindFitsLines(expand: Expand, lines: seq<Line>, p: nat)
    returns (first: nat, end: nat, block: Block)
    requires p < |lines| && !lines[p].blank && !lines[p].emptyMark
    requires lines[StretchOf(lines, 0, p)].fence.None?
    ensures first <= p < end <= |lines| && block in Tokenize(expand, lines, 0)
    ensures HoldsLines(block, lines, first, end) && WholeBlock(lines, first, end, block.kind)
    ensures if block.kind == HeadingKind then lines[first].heading == Some((block.level, block.heading))
      else block.level == 0 && block.heading == ""
  {
    first := StretchOf(lines, 0, p);
    end := StretchEnd(lines, first);
    TextStretchHolds(expand, lines, first, p);
    StretchFits(expand, lines, first);
    block := StretchBlocks(expand, lines, first)[0];
    StretchInPage(expand, lines, p, 0);
    OneText(lines, first);
  }

  lemma OneText(lines: seq<Line>, p: nat)
    requires p < |lines|
    ensures Texts(lines[p..p + 1]) == [lines[p].text]
  {}

  lemma {:induction false} StretchInPage(expand: Expand, lines: seq<Line>, p: nat, k: nat)
    requires p < |lines| && k < |StretchBlocks(expand, lines, StretchOf(lines, 0, p))|
    ensures StretchBlocks(expand, lines, StretchOf(lines, 0, p))[k] in Tokenize(expand, lines, 0)
  {
    var own, blocks := StretchBlocks(expand, lines, StretchOf(lines, 0, p)), Tokenize(expand, lines, 0);
    var at := OnlyItsStretch(expand, lines, 0, p);
    assert blocks[at..at + |own|][k] == blocks[at + k];
  }

  /** A heading line outside fences is a heading block of its own. */
  lemma {:induction false} HeadingStands(expand: Expand, lines: seq<Line>, p: nat)
    requires p < |lines| && lines[p].heading.Some? && lines[StretchOf(lines, 0, p)].fence.None?
    requires !lines[p].blank && !lines[p].emptyMark && !lines[p].table && !lines[p].item && !lines[p].indented
    ensures Block(HeadingKind, [lines[p].text], p + 1, p + 1, lines[p].heading.value.0, lines[p].heading.value.1)
      in Tokenize(expand, lines, 0)
  {
    var first, end, block := KindFitsLines(expand, lines, p);
    assert !InList(lines, p) && !Plain(lines[p]);
    assert first == p && block.kind == HeadingKind;
    OneText(lines, p);
  }

  /** The lines of a closed fence lie between its first line and its last, those of an open one reach to
      the end of the page. */
  predicate InsideFence(lines: seq<Line>, first: nat, p: nat)
    requires first < |lines| && lines[first].fence.Some?
  {
    first < p < |lines| && forall j :: first < j <= p ==> !Closes(lines[j], lines[first].fence.value)
  }

  lemma {:induction false} FenceGoesOn(lines: seq<Line>, fence: Fence, j: nat, p: nat)
    requires j <= p < |lines| && forall k :: j <= k <= p ==> !Closes(lines[k], fence)
    ensures FenceEnd(lines, fence, j) > p
    decreases |lines| - j
  {
    if j < p { FenceGoesOn(lines, fence, j + 1, p); }
  }

  lemma {:induction false} FenceStretch(expand: Expand, lines: seq<Line>, first: nat, p: nat)
    requires first < |lines| && lines[first].fence.Some? && !IsGraite(lines[first].fence.value.language)
    requires InsideFence(lines, first, p)
    ensures var own := StretchBlocks(expand, lines, first);
      && |own| == 1 && own[0].kind == CodeKind && own[0].start == first + 1
      && p - first - 1 < |own[0].lines| && own[0].lines[p - first - 1] == lines[p].text
  {
    FenceGoesOn(lines, lines[first].fence.value, first + 1, p);
    FencedText(lines, first + 1, FenceEnd(lines, lines[first].fence.value, first + 1), p);
  }

  lemma FencedText(lines: seq<Line>, from: nat, to: nat, p: nat)
    requires from <= p < to <= |lines|
    ensures Texts(lines[from..to]) != [] && p - from < |Texts(lines[from..to])|
    ensures Texts(lines[from..to])[p - from] == lines[p].text
  {}

  /** A line inside an ordinary fence lies in a code block that starts with the fence, as its line of that
      number, whatever the line looks like. */
  lemma {:induction false} FencedLineIsCode(expand: Expand, lines: seq<Line>, p: nat) returns (block: Block)
    requires p < |lines|
    requires var first := StretchOf(lines, 0, p);
      lines[first].fence.Some? && !IsGraite(lines[first].fence.value.language) && InsideFence(lines, first, p)
    ensures var first := StretchOf(lines, 0, p);
      && block in Tokenize(expand, lines, 0) && block.kind == CodeKind && block.start == first + 1
      && p - first - 1 < |block.lines| && block.lines[p - first - 1] == lines[p].text
  {
    var first := StretchOf(lines, 0, p);
    FenceStretch(expand, lines, first, p);
    StretchInPage(expand, lines, p, 0);
    block := StretchBlocks(expand, lines, first)[0];
  }

  // ----- every block comes from its lines -----

  /** The fence that opens at `first` closes at line `j`, or is open to the end of the page. */
  predicate FenceCloses(lines: seq<Line>, first: nat, j: nat)
    requires first < |lines| && lines[first].fence.Some?
  {
    && first < j <= |lines| && (forall k :: first < k < j ==> !Closes(lines[k], lines[first].fence.value))
    && (j < |lines| ==> Closes(lines[j], lines[first].fence.value))
  }

  /** A block of a fence: the lines inside it as code, or a piece of what a `graite:` fence expands to. */
  ghost predicate FromFence(expand: Expand, lines: seq<Line>, first: nat, j: nat, block: Block)
    requires first < |lines| && lines[first].fence.Some? && FenceCloses(lines, first, j)
  {
    var language, body := lines[first].fence.value.language, Texts(lines[first + 1..j]);
    && block.start == first + 1 && block.end == (if j < |lines| then j + 1 else j)
    && if IsGraite(language) then Piece(block.kind, block.lines) in expand(language, body)
       else block.kind == CodeKind && block.lines == body != []
  }

  /** A block of a text stretch: it holds whole lines, the first one neither blank nor the empty marker,
      and its kind fits them. */
  predicate FromText(lines: seq<Line>, first: nat, end: nat, block: Block)
    requires first < end <= |lines|
  {
    && !lines[first].blank && !lines[first].emptyMark && lines[first].fence.None?
    && HoldsLines(block, lines, first, end) && WholeBlock(lines, first, end, block.kind)
  }

  lemma {:induction false} StretchFound(expand: Expand, lines: seq<Line>, i: nat, block: Block) returns (first: nat)
    requires i <= |lines| && block in Tokenize(expand, lines, i)
    ensures first < |lines| && block in StretchBlocks(expand, lines, first)
    decreases |lines| - i
  {
    if block in StretchBlocks(expand, lines, i) {
      first := i;
    } else {
      first := StretchFound(expand, lines, StretchEnd(lines, i), block);
    }
  }

  /** A page has no block but those its lines spell: blank lines and empty markers give none, and neither
      does an empty fence. */
  lemma {:induction false} EveryBlockFromLines(expand: Expand, lines: seq<Line>, block: Block)
    returns (first: nat, end: nat)
    requires block in Tokenize(expand, lines, 0)
    ensures first < end <= |lines|
    ensures if lines[first].fence.Some?
      then FenceCloses(lines, first, end) && FromFence(expand, lines, first, end, block)
      else FromText(lines, first, end, block)
  {
    first := StretchFound(expand, lines, 0, block);
    if lines[first].fence.Some? {
      end := FenceEnd(lines, lines[first].fence.value, first + 1);
      assert block in FenceBlocks(expand, lines[first].fence.value, Texts(lines[first + 1..end]), first + 1,
                                  if end < |lines| then end + 1 else |lines|);
    } else {
      end := StretchEnd(lines, first);
      StretchFits(expand, lines, first);
      OneText(lines, first);
    }
  }

  predicate StandAt(blocks: seq<Block>, at: nat, pieces: seq<Piece>) {
    at + |pieces| <= |blocks| &&
    forall m :: 0 <= m < |pieces| ==> pieces[m] == Piece(blocks[at + m].kind, blocks[at + m].lines)
  }

  /** What a `graite:` fence expands to stands on the page, piece by piece and in order. */
  lemma {:induction false} GraiteFenceExpands(expand: Expand, lines: seq<Line>, p: nat) returns (at: nat, j: nat)
    requires p < |lines|
    requires var first := StretchOf(lines, 0, p);
      lines[first].fence.Some? && IsGraite(lines[first].fence.value.language)
    ensures var first := StretchOf(lines, 0, p);
      FenceCloses(lines, first, j) && StandAt(
        Tokenize(expand, lines, 0), at, expand(lines[first].fence.value.language, Texts(lines[first + 1..j])))
  {
    var first := StretchOf(lines, 0, p);
    var fence := lines[first].fence.value;
    j := FenceEnd(lines, fence, first + 1);
    at := OnlyItsStretch(expand, lines, 0, p);
    var last := if j < |lines| then j + 1 else |lines|;
    FencePiecesStand(expand, fence, Texts(lines[first + 1..j]), first + 1, last, StretchBlocks(expand, lines, first));
    PlacedStands(Tokenize(expand, lines, 0), StretchBlocks(expand, lines, first), at, p,
                 expand(fence.language, Texts(lines[first + 1..j])));
  }

  lemma FencePiecesStand(expand: Expand, fence: Fence, body: seq<string>, start: nat, end: nat, own: seq<Block>)
    requires IsGraite(fence.language) && own == FenceBlocks(expand, fence, body, start, end)
    ensures |own| == |expand(fence.language, body)| && StandAt(own, 0, expand(fence.language, body))
  {}

  lemma PlacedStands(blocks: seq<Block>, own: seq<Block>, at: nat, p: nat, pieces: seq<Piece>)
    requires Placed(blocks, own, at, p) && |own| == |pieces| && StandAt(own, 0, pieces)
    ensures StandAt(blocks, at, pieces)
  {
    forall m | 0 <= m < |pieces| ensures pieces[m] == Piece(blocks[at + m].kind, blocks[at + m].lines) {
      assert blocks[at..at + |own|][m] == blocks[at + m] && pieces[m] == Piece(own[0 + m].kind, own[0 + m].lines);
    }
  }
}
