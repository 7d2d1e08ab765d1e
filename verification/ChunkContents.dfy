/** Nothing that is written on a page is lost on its way into the chunks. */
module ChunkContents {
  import opened Common
  import opened PythonText
  import opened ChunkLines
  import opened ChunkSplit
  import opened ChunkPage
  import opened ChunkPageProofs

  // ----- prose -----

  function InkedAll(texts: seq<string>): string {
    if texts == [] then "" else Inked(texts[0]) + InkedAll(texts[1..])
  }

  /** What piece `k` holds before its own sentences: the end of the piece before, or `front`. */
  function Taken(pieces: seq<string>, overlap: nat, front: string, k: nat): string
    requires k < |pieces|
  {
    if k == 0 then front else Inked(Tail(pieces[k - 1], overlap))
  }

  predicate HoldsGroup(pieces: seq<string>, groups: seq<seq<string>>, overlap: nat, front: string, k: nat)
    requires k < |pieces| && k < |groups|
  {
    groups[k] != [] && Inked(pieces[k]) == Taken(pieces, overlap, front, k) + InkedAll(groups[k])
  }

  /** Each piece holds its group of sentences, in order, after what it took over. */
  predicate Distributes(pieces: seq<string>, groups: seq<seq<string>>, overlap: nat, front: string) {
    |groups| == |pieces| && forall k :: 0 <= k < |pieces| ==> HoldsGroup(pieces, groups, overlap, front, k)
  }

  /** The first sentence of a piece did not fit into the piece before. */
  predicate DidNotFit(pieces: seq<string>, groups: seq<seq<string>>, maximum: nat, k: nat)
    requires 0 < k < |pieces| && k < |groups|
  {
    groups[k] != [] && |pieces[k - 1]| + |groups[k][0]| + 1 > maximum
  }

  predicate CutLate(pieces: seq<string>, groups: seq<seq<string>>, maximum: nat) {
    |groups| == |pieces| && forall k :: 0 < k < |pieces| ==> DidNotFit(pieces, groups, maximum, k)
  }

  lemma {:induction false} InkedAllAppend(texts: seq<string>, text: string)
    ensures InkedAll(texts + [text]) == InkedAll(texts) + Inked(text)
    decreases |texts|
  {
    if texts == [] {
      assert [text][1..] == [];
    } else {
      assert (texts + [text])[1..] == texts[1..] + [text];
      InkedAllAppend(texts[1..], text);
    }
  }

  lemma {:induction false} BlankBetween(a: string, b: string)
    ensures Inked(a + " " + b) == Inked(a) + Inked(b)
  {
    InkedJoin(a + " ", b);
    InkedJoin(a, " ");
    assert Inked(" ") == "";
  }

  lemma {:induction false} ExtendKeepsInk(current: string, sentence: string)
    ensures Inked(Extend(current, sentence)) == Inked(current) + Inked(sentence)
  {
    if current != "" {
      StripKeepsInk(current + " " + sentence, IsSpace);
      BlankBetween(current, sentence);
    }
  }

  lemma {:induction false} CarriedInk(current: string, overlap: nat)
    ensures Inked(CarriedText(current, overlap)) == Inked(Tail(current, overlap))
  {
    if overlap > 0 {
      var kept := StripLeft(Tail(current, overlap), IsSpace);
      StripLeftKeepsInk(Tail(current, overlap), IsSpace);
      BlankBetween(kept, "");
      assert kept + " " + "" == kept + " ";
    }
  }

  lemma {:induction false} DistributesFirst(first: string, rest: seq<string>, group: seq<string>,
      groups: seq<seq<string>>, overlap: nat, front: string)
    requires group != [] && Inked(first) == front + InkedAll(group)
    requires Distributes(rest, groups, overlap, Inked(Tail(first, overlap)))
    ensures Distributes([first] + rest, [group] + groups, overlap, front)
  {
    var pieces, all := [first] + rest, [group] + groups;
    forall k | 0 <= k < |pieces| ensures HoldsGroup(pieces, all, overlap, front, k) {
      if k > 0 {
        assert pieces[k] == rest[k - 1] && all[k] == groups[k - 1];
        assert HoldsGroup(rest, groups, overlap, Inked(Tail(first, overlap)), k - 1);
        if k > 1 { assert pieces[k - 1] == rest[k - 2]; }
      }
    }
  }

  /** The pieces of `sentences` after `current`, which holds `front` and then the sentences `held`. */
  predicate Regroups(
    sentences: seq<string>, pieces: seq<string>, maximum: nat, overlap: nat, held: seq<string>, front: string,
    groups: seq<seq<string>>, dropped: seq<string>)
  {
    && Distributes(pieces, groups, overlap, front) && CutLate(pieces, groups, maximum)
    && Concat(groups) + dropped == held + sentences && InkedAll(dropped) == ""
  }

  lemma {:induction false} LastPiece(current: string, maximum: nat, overlap: nat, held: seq<string>, front: string)
    requires Inked(current) == front + InkedAll(held) && held != []
    ensures Regroups([], [current], maximum, overlap, held, front, [held], [])
  {
    ConcatOne(held);
    DistributesFirst(current, [], held, [], overlap, front);
    assert [current] + [] == [current] && [held] + [] == [held];
    assert held + [] == held;
  }

  lemma {:induction false} PieceBefore(
    current: string, sentences: seq<string>, pieces: seq<string>, maximum: nat, overlap: nat, held: seq<string>,
    front: string, groups: seq<seq<string>>, dropped: seq<string>)
    requires sentences != [] && held != [] && Inked(current) == front + InkedAll(held)
    requires |current| + |sentences[0]| + 1 > maximum
    requires Regroups(
      sentences[1..], pieces, maximum, overlap, [sentences[0]], Inked(Tail(current, overlap)), groups, dropped)
    ensures Regroups(sentences, [current] + pieces, maximum, overlap, held, front, [held] + groups, dropped)
  {
    DistributesFirst(current, pieces, held, groups, overlap, front);
    LateBefore(current, sentences, pieces, maximum, overlap, groups, held, dropped, Inked(Tail(current, overlap)));
    assert ([held] + groups)[1..] == groups;
    HeldFirst(held, Concat(groups), dropped, sentences);
  }

  lemma {:induction false} LateBefore(
    current: string, sentences: seq<string>, pieces: seq<string>, maximum: nat, overlap: nat,
    groups: seq<seq<string>>, held: seq<string>, dropped: seq<string>, front: string)
    requires sentences != [] && |current| + |sentences[0]| + 1 > maximum
    requires Concat(groups) + dropped == [sentences[0]] + sentences[1..]
    requires CutLate(pieces, groups, maximum) && Distributes(pieces, groups, overlap, front)
    ensures CutLate([current] + pieces, [held] + groups, maximum)
  {
    var all, owned := [current] + pieces, [held] + groups;
    forall k | 0 < k < |all| ensures DidNotFit(all, owned, maximum, k) {
      if k > 1 {
        assert DidNotFit(pieces, groups, maximum, k - 1);
        assert all[k - 1] == pieces[k - 2] && owned[k] == groups[k - 1];
      } else {
        assert HoldsGroup(pieces, groups, overlap, front, 0);
        assert Concat(groups)[0] == groups[0][0];
        assert (Concat(groups) + dropped)[0] == sentences[0];
      }
    }
  }

  lemma HeldFirst(held: seq<string>, middle: seq<string>, dropped: seq<string>, sentences: seq<string>)
    requires sentences != [] && middle + dropped == [sentences[0]] + sentences[1..]
    ensures held + middle + dropped == held + sentences
  {
    assert [sentences[0]] + sentences[1..] == sentences;
    assert held + middle + dropped == held + (middle + dropped);
  }

  lemma {:induction false} NextInk(current: string, overlap: nat, sentence: string)
    ensures Inked(Extend(CarriedText(current, overlap), sentence)) == Inked(Tail(current, overlap))
      + InkedAll([sentence])
  {
    CarriedInk(current, overlap);
    ExtendKeepsInk(CarriedText(current, overlap), sentence);
    assert [sentence][1..] == [];
  }

  lemma {:induction false} GrownInk(current: string, held: seq<string>, front: string, sentences: seq<string>)
    requires sentences != [] && Inked(current) == front + InkedAll(held)
    ensures Inked(Extend(current, sentences[0])) == front + InkedAll(held + [sentences[0]])
    ensures held + [sentences[0]] + sentences[1..] == held + sentences
  {
    var sentence := sentences[0];
    ExtendKeepsInk(current, sentence);
    InkedAllAppend(held, sentence);
    Associates(front, InkedAll(held), Inked(sentence));
    assert sentences == [sentence] + sentences[1..];
    assert held + [sentence] + sentences[1..] == held + ([sentence] + sentences[1..]);
  }

  lemma Associates(a: string, b: string, c: string)
    ensures a + b + c == a + (b + c)
  {}

  lemma {:induction false} ProseDistributes(
    sentences: seq<string>, maximum: nat, overlap: nat, current: string, held: seq<string>, front: string)
    returns (groups: seq<seq<string>>, dropped: seq<string>)
    requires Inked(current) == front + InkedAll(held) && (current != "" ==> held != [])
    ensures Regroups(
      sentences, SplitProse(sentences, maximum, overlap, current), maximum, overlap, held, front, groups, dropped)
    decreases |sentences|
  {
    if sentences == [] {
      if current == "" {
        groups, dropped := [], held;
        assert [] + held == held + [];
      } else {
        groups, dropped := [held], [];
        LastPiece(current, maximum, overlap, held, front);
      }
    } else if current != "" && |current| + |sentences[0]| + 1 > maximum {
      var next := Extend(CarriedText(current, overlap), sentences[0]);
      NextInk(current, overlap, sentences[0]);
      var later;
      later, dropped := ProseDistributes(
        sentences[1..], maximum, overlap, next, [sentences[0]], Inked(Tail(current, overlap)));
      groups := [held] + later;
      PieceBefore(
        current, sentences, SplitProse(sentences[1..], maximum, overlap, next), maximum, overlap, held, front, later,
        dropped);
    } else {
      GrownInk(current, held, front, sentences);
      groups, dropped := ProseDistributes(
        sentences[1..], maximum, overlap, Extend(current, sentences[0]), held + [sentences[0]], front);
    }
  }

  /** Splitting prose loses, doubles and moves no sentence: the sentences fall into groups, in order,
      one to a piece, and what is written on a piece is the end of the piece before, which it takes
      over, and then exactly its group, whose first sentence did not fit before. Only blank sentences can
      be left over at the end. */
  lemma {:induction false} ProseConserves(sentences: seq<string>, maximum: nat, overlap: nat)
    returns (groups: seq<seq<string>>, dropped: seq<string>)
    ensures Distributes(SplitProse(sentences, maximum, overlap, ""), groups, overlap, "")
    ensures CutLate(SplitProse(sentences, maximum, overlap, ""), groups, maximum)
    ensures Concat(groups) + dropped == sentences && InkedAll(dropped) == ""
  {
    assert [] + sentences == sentences;
    groups, dropped := ProseDistributes(sentences, maximum, overlap, "", [], "");
  }

  // ----- parts of a text -----

  lemma InsideItself(text: string)
    ensures Inside(text, text)
  {
    assert text == "" + text + "";
  }

  lemma InsideJoin(part: string, a: string, middle: string, b: string)
    requires Inside(part, middle)
    ensures Inside(part, a + middle + b)
  {
    InsideParts(a, middle, b, a + middle + b);
    InsideTrans(part, middle, a + middle + b);
  }

  lemma {:induction false} JoinHolds(parts: seq<string>, separator: string, k: nat)
    requires k < |parts|
    ensures Inside(parts[k], JoinWith(parts, separator))
    decreases |parts|
  {
    if |parts| == 1 {
      InsideItself(parts[0]);
    } else if k == 0 {
      InsideItself(parts[0]);
      InsideJoin(parts[0], "", parts[0], separator + JoinWith(parts[1..], separator));
      assert "" + parts[0] + (separator + JoinWith(parts[1..], separator)) == JoinWith(parts, separator);
    } else {
      JoinHolds(parts[1..], separator, k - 1);
      InsideJoin(parts[k], parts[0] + separator, JoinWith(parts[1..], separator), "");
      assert parts[0] + separator + JoinWith(parts[1..], separator) + "" == JoinWith(parts, separator);
    }
  }

  predicate FreeOf(text: string, drop: char -> bool) {
    forall i :: 0 <= i < |text| ==> !drop(text[i])
  }

  lemma {:induction false} StripLeftHolds(part: string, whole: string, drop: char -> bool)
    requires Inside(part, whole) && FreeOf(part, drop)
    ensures Inside(part, StripLeft(whole, drop))
    decreases |whole|
  {
    if whole != "" && drop(whole[0]) {
      var a, b :| whole == a + part + b;
      if part == "" {
        assert whole[1..] == "" + part + whole[1..];
      } else {
        assert whole[0] == (a + part)[0];
        assert whole[1..] == a[1..] + part + b;
      }
      StripLeftHolds(part, whole[1..], drop);
    }
  }

  lemma {:induction false} StripRightHolds(part: string, whole: string, drop: char -> bool)
    requires Inside(part, whole) && FreeOf(part, drop)
    ensures Inside(part, StripRight(whole, drop))
    decreases |whole|
  {
    if whole != "" && drop(whole[|whole| - 1]) {
      var front := whole[..|whole| - 1];
      var a, b :| whole == a + part + b;
      if part == "" {
        assert front == "" + part + front;
      } else {
        assert whole[|whole| - 1] == (part + b)[|part + b| - 1];
        assert front == a + part + b[..|b| - 1];
      }
      StripRightHolds(part, front, drop);
    }
  }

  lemma StripHolds(part: string, whole: string, drop: char -> bool)
    requires Inside(part, whole) && FreeOf(part, drop)
    ensures Inside(part, Strip(whole, drop))
  {
    StripLeftHolds(part, whole, drop);
    StripRightHolds(part, StripLeft(whole, drop), drop);
  }

  /** A line of a block stands in the block's text. */
  lemma LineInText(block: Block, line: string)
    requires line in block.lines && FreeOf(line, IsNewline)
    ensures Inside(line, TextOf(block))
  {
    var k :| 0 <= k < |block.lines| && block.lines[k] == line;
    JoinHolds(block.lines, "\n", k);
    StripHolds(line, JoinWith(block.lines, "\n"), IsNewline);
  }

  // ----- from a block to a final chunk -----

  /** Some chunk of the page contains `text`. */
  ghost predicate OnPage(page: seq<Chunk>, text: string) {
    exists k :: 0 <= k < |page| && Inside(text, page[k].text)
  }

  lemma {:induction false} BodyOf(blocks: seq<Block>, block: Block)
    requires block in blocks && block.kind != HeadingKind
    ensures block in Bodies(blocks)
    decreases |blocks|
  {
    if blocks[0] != block { BodyOf(blocks[1..], block); }
  }

  lemma {:induction false} SectionOf(sections: seq<Section>, block: Block)
    requires block in SectionBodies(sections)
    ensures exists s :: 0 <= s < |sections| && block in sections[s].blocks
    decreases |sections|
  {
    if block !in sections[0].blocks {
      SectionOf(sections[1..], block);
      var s :| 0 <= s < |sections[1..]| && block in sections[1..][s].blocks;
      assert sections[s + 1] == sections[1..][s];
    } else {
      assert block in sections[0].blocks;
    }
  }

  lemma {:induction false} ChunkListed(
    patterns: Patterns, prose: Prose, limits: Limits, sections: seq<Section>, s: nat, chunk: Chunk)
    requires s < |sections| && chunk in SectionChunks(patterns, prose, limits, sections[s])
    ensures chunk in AllChunks(patterns, prose, limits, sections)
    decreases |sections|
  {
    if s > 0 { ChunkListed(patterns, prose, limits, sections[1..], s - 1, chunk); }
  }

  /** A part of a block of the section stands in one of its chunks. */
  lemma {:induction false} PartInChunk(
    patterns: Patterns, prose: Prose, limits: Limits, section: Section, block: Block, part: Block)
    returns (chunk: Chunk)
    requires block in section.blocks && part in SplitBlock(patterns, prose, block, limits.maximum, limits.overlap)
    ensures chunk in SectionChunks(patterns, prose, limits, section) && Inside(TextOf(part), chunk.text)
  {
    var each := SplitEach(patterns, prose, section.blocks, limits.maximum, limits.overlap);
    var b :| 0 <= b < |section.blocks| && section.blocks[b] == block;
    assert part in each[b];
    ConcatHolds(each, part);
    PackConserves(Concat(each), limits.target);
    var groups := Pack(Concat(each), limits.target, []);
    ConcatHolds(groups, part);
    var g :| 0 <= g < |groups| && part in groups[g];
    var k :| 0 <= k < |groups[g]| && groups[g][k] == part;
    chunk := ChunkOf(section, groups[g]);
    assert SectionChunks(patterns, prose, limits, section)[g] == chunk;
    assert GroupTexts(groups[g])[k] == TextOf(part);
    JoinHolds(GroupTexts(groups[g]), "\n\n", k);
  }

  /** What a chunk contains stands on the page, whatever it was merged into. */
  lemma {:induction false} ChunkOnPage(
    patterns: Patterns, prose: Prose, limits: Limits, title: string, blocks: seq<Block>, chunk: Chunk, text: string)
    requires chunk in AllChunks(patterns, prose, limits, Sections(blocks, START))
    requires Inside(text, chunk.text) && text != ""
    ensures OnPage(PageChunks(patterns, prose, limits, title, blocks), text)
  {
    var runs, merged, _ := PageLosesNothing(patterns, prose, limits, title, blocks);
    RunHoldsChunk(runs, merged, chunk, text);
    var whole :| whole in merged && Inside(text, whole.text);
    NotEmpty(text, whole.text);
    assert whole in Kept(merged);
    KeptOnPage(Kept(merged), PageChunks(patterns, prose, limits, title, blocks), title, whole, text);
  }

  lemma NotEmpty(part: string, whole: string)
    requires Inside(part, whole) && part != ""
    ensures whole != ""
  {}

  lemma {:induction false} RunHoldsChunk(runs: seq<seq<Chunk>>, merged: seq<Chunk>, chunk: Chunk, text: string)
    requires RunsHeld(runs, merged) && chunk in Concat(runs) && Inside(text, chunk.text)
    ensures exists whole :: whole in merged && Inside(text, whole.text)
  {
    ConcatHolds(runs, chunk);
    var r :| 0 <= r < |runs| && chunk in runs[r];
    var k :| 0 <= k < |runs[r]| && runs[r][k] == chunk;
    assert HoldsRun(runs[r], merged[r]);
    InsideTrans(text, chunk.text, merged[r].text);
    assert merged[r] in merged;
  }

  lemma KeptOnPage(kept: seq<Chunk>, page: seq<Chunk>, title: string, whole: Chunk, text: string)
    requires whole in kept && Inside(text, whole.text) && IsPage(page, kept, title)
    ensures OnPage(page, text)
  {
    var f :| 0 <= f < |kept| && kept[f] == whole;
    assert page[f].text == whole.text;
  }

  lemma {:induction false} PartOnPage(
    patterns: Patterns, prose: Prose, limits: Limits, title: string, blocks: seq<Block>, block: Block, part: Block,
    text: string)
    requires block in blocks && block.kind != HeadingKind
    requires part in SplitBlock(patterns, prose, block, limits.maximum, limits.overlap)
    requires Inside(text, TextOf(part)) && text != ""
    ensures OnPage(PageChunks(patterns, prose, limits, title, blocks), text)
  {
    var sections := Sections(blocks, START);
    BodyOf(blocks, block);
    SectionsConserve(blocks, START);
    assert [] + Bodies(blocks) == Bodies(blocks);
    SectionOf(sections, block);
    var s :| 0 <= s < |sections| && block in sections[s].blocks;
    var chunk := PartInChunk(patterns, prose, limits, sections[s], block, part);
    ChunkListed(patterns, prose, limits, sections, s, chunk);
    InsideTrans(text, TextOf(part), chunk.text);
    ChunkOnPage(patterns, prose, limits, title, blocks, chunk, text);
  }

  // ----- from a line to its part -----

  lemma {:induction false} NewItemsHeld<T>(pieces: seq<seq<T>>, carry: nat, skip: nat, x: T)
    requires x in NewItems(pieces, carry, skip)
    ensures exists k :: 0 <= k < |pieces| && x in pieces[k]
    decreases |pieces|
  {
    var first := if skip <= |pieces[0]| then pieces[0][skip..] else [];
    if x in first {
      assert x in pieces[0];
    } else {
      NewItemsHeld(pieces[1..], carry, if |pieces[0]| < carry then |pieces[0]| else carry, x);
      var k :| 0 <= k < |pieces[1..]| && x in pieces[1..][k];
      assert pieces[k + 1] == pieces[1..][k];
    }
  }

  /** Prose that is cut at sentences, where a line need not stay in one piece. */
  predicate CutAtSentences(block: Block, maximum: nat) {
    |TextOf(block)| > maximum && block.kind != TableKind && block.kind != ListKind && block.kind != CodeKind
  }

  lemma {:induction false} TableLine(patterns: Patterns, prose: Prose, block: Block, maximum: nat, overlap: nat,
      line: string)
    returns (part: Block)
    requires block.kind == TableKind && |TextOf(block)| > maximum && line in block.lines
    ensures part in SplitBlock(patterns, prose, block, maximum, overlap) && line in part.lines
  {
    var pieces, header := TableSplitConserves(patterns, prose, block, maximum, overlap);
    var k := 0;
    if line in NewItems(pieces, 1, 0) {
      NewItemsHeld(pieces, 1, 0, line);
      k :| 0 <= k < |pieces| && line in pieces[k];
    } else {
      assert line in header && pieces != [];
    }
    part := Piecewise(block, pieces, header)[k];
  }

  lemma {:induction false} ListLine(patterns: Patterns, prose: Prose, block: Block, maximum: nat, overlap: nat,
      line: string)
    returns (part: Block)
    requires (block.kind == ListKind || block.kind == CodeKind) && |TextOf(block)| > maximum && line in block.lines
    ensures part in SplitBlock(patterns, prose, block, maximum, overlap) && line in part.lines
  {
    var pieces := ListSplitConserves(patterns, prose, block, maximum, overlap);
    var carry := if block.kind == ListKind then 2 else 0;
    var items := NewItems(pieces, carry, 0);
    ConcatHolds(items, line);
    var i :| 0 <= i < |items| && line in items[i];
    NewItemsHeld(pieces, carry, 0, items[i]);
    var k :| 0 <= k < |pieces| && items[i] in pieces[k];
    ConcatHolds(pieces[k], line);
    assert ConcatEach(pieces)[k] == Concat(pieces[k]);
    part := Piecewise(block, ConcatEach(pieces), [])[k];
    assert part.lines == [] + Concat(pieces[k]);
  }

  /** Every line of a block that is not cut at sentences stays whole in some part. */
  lemma {:induction false} LineInPart(patterns: Patterns, prose: Prose, block: Block, maximum: nat, overlap: nat,
      line: string)
    returns (part: Block)
    requires !CutAtSentences(block, maximum) && line in block.lines
    ensures part in SplitBlock(patterns, prose, block, maximum, overlap) && line in part.lines
  {
    if |TextOf(block)| <= maximum {
      part := block;
    } else if block.kind == TableKind {
      part := TableLine(patterns, prose, block, maximum, overlap, line);
    } else {
      part := ListLine(patterns, prose, block, maximum, overlap, line);
    }
  }

  lemma {:induction false} BlockLineOnPage(
    patterns: Patterns, prose: Prose, limits: Limits, title: string, blocks: seq<Block>, block: Block, line: string)
    requires block in blocks && block.kind != HeadingKind && !CutAtSentences(block, limits.maximum)
    requires line in block.lines && line != "" && FreeOf(line, IsNewline)
    ensures OnPage(PageChunks(patterns, prose, limits, title, blocks), line)
  {
    var part := LineInPart(patterns, prose, block, limits.maximum, limits.overlap, line);
    LineInText(part, line);
    PartOnPage(patterns, prose, limits, title, blocks, block, part, line);
  }

  // ----- what a page writes stands in its chunks -----

  /** Line `p` is written in a paragraph, a list, a table or a plain code fence. */
  predicate IsWritten(lines: seq<Line>, p: nat)
    requires p < |lines|
  {
    var first := StretchOf(lines, 0, p);
    if lines[first].fence.None? then !lines[p].blank && !lines[p].emptyMark && lines[p].heading.None?
    else
      var fence := lines[first].fence.value;
      !IsGraite(fence.language) && first < p < FenceEnd(lines, fence, first + 1)
  }

  lemma {:induction false} WrittenInBlock(expand: Expand, lines: seq<Line>, p: nat) returns (block: Block)
    requires p < |lines| && IsWritten(lines, p)
    ensures block in Tokenize(expand, lines, 0) && block.kind != HeadingKind && lines[p].text in block.lines
  {
    var first := StretchOf(lines, 0, p);
    var own := StretchBlocks(expand, lines, first);
    var at := OnlyItsStretch(expand, lines, 0, p);
    if lines[first].fence.None? { TextHolds(expand, lines, first, p); } else { FenceHolds(expand, lines, first, p); }
    block := own[0];
    OwnStands(Tokenize(expand, lines, 0), own, at, p);
  }

  lemma OwnStands(blocks: seq<Block>, own: seq<Block>, at: nat, p: nat)
    requires |own| == 1 && Placed(blocks, own, at, p)
    ensures own[0] in blocks
  {
    assert blocks[at..at + 1][0] == blocks[at];
  }

  lemma {:induction false} TextHolds(expand: Expand, lines: seq<Line>, first: nat, p: nat)
    requires first <= p < |lines| && p < StretchEnd(lines, first) && lines[first].fence.None?
    requires !lines[p].blank && !lines[p].emptyMark && lines[p].heading.None?
    ensures var own := StretchBlocks(expand, lines, first);
      |own| == 1 && own[0].kind != HeadingKind && lines[p].text in own[0].lines
  {
    TextStretchHolds(expand, lines, first, p);
  }

  lemma {:induction false} FenceHolds(expand: Expand, lines: seq<Line>, first: nat, p: nat)
    requires first < p < |lines| && lines[first].fence.Some?
    requires var fence := lines[first].fence.value;
      !IsGraite(fence.language) && p < FenceEnd(lines, fence, first + 1)
    ensures var own := StretchBlocks(expand, lines, first);
      |own| == 1 && own[0].kind == CodeKind && lines[p].text in own[0].lines
  {
    var body := Texts(lines[first + 1..FenceEnd(lines, lines[first].fence.value, first + 1)]);
    assert body[p - first - 1] == lines[p].text;
  }

  /** Every line a page writes outside headings and `graite:` fences stands, whole, in some chunk of
      the page, unless it belongs to prose longer than the maximum, which is cut at sentences. */
  lemma {:induction false} PageKeepsLines(
    expand: Expand, patterns: Patterns, prose: Prose, limits: Limits, title: string, lines: seq<Line>, p: nat)
    returns (block: Block)
    requires p < |lines| && IsWritten(lines, p) && lines[p].text != "" && FreeOf(lines[p].text, IsNewline)
    ensures block in Tokenize(expand, lines, 0) && lines[p].text in block.lines
    ensures CutAtSentences(block, limits.maximum) ||
      OnPage(PageChunks(patterns, prose, limits, title, Tokenize(expand, lines, 0)), lines[p].text)
  {
    block := WrittenInBlock(expand, lines, p);
    if !CutAtSentences(block, limits.maximum) {
      BlockLineOnPage(patterns, prose, limits, title, Tokenize(expand, lines, 0), block, lines[p].text);
    }
  }

  /** `splitlines` drops nothing but line ends. */
  ghost predicate LinesKeepInk(prose: Prose) {
    forall text :: Inked(JoinWith(prose.lines(text), "\n")) == Inked(text)
  }

  lemma {:induction false} InkedInside(part: string, whole: string)
    requires Inside(part, whole)
    ensures Inside(Inked(part), Inked(whole))
  {
    var a, b :| whole == a + part + b;
    InkedJoin(a + part, b);
    InkedJoin(a, part);
    assert Inked(whole) == Inked(a) + Inked(part) + Inked(b);
  }

  lemma {:induction false} InkOfMember(texts: seq<string>, text: string)
    requires text in texts
    ensures Inside(Inked(text), InkedAll(texts))
    decreases |texts|
  {
    if texts[0] == text {
      InsideParts("", Inked(text), InkedAll(texts[1..]), InkedAll(texts));
    } else {
      InkOfMember(texts[1..], text);
      InsideJoin(Inked(text), Inked(texts[0]), InkedAll(texts[1..]), "");
      assert Inked(texts[0]) + InkedAll(texts[1..]) + "" == InkedAll(texts);
    }
  }

  /** A sentence that is not blank is written in some piece. */
  lemma {:induction false} SentenceInPiece(sentences: seq<string>, maximum: nat, overlap: nat, sentence: string)
    returns (k: nat)
    requires sentence in sentences && Inked(sentence) != ""
    ensures k < |SplitProse(sentences, maximum, overlap, "")|
    ensures Inside(Inked(sentence), Inked(SplitProse(sentences, maximum, overlap, "")[k]))
  {
    var pieces := SplitProse(sentences, maximum, overlap, "");
    var groups, dropped := ProseConserves(sentences, maximum, overlap);
    if sentence in dropped {
      InkOfMember(dropped, sentence);
      NotEmpty(Inked(sentence), InkedAll(dropped));
      assert false;
    }
    ConcatHolds(groups, sentence);
    k :| 0 <= k < |groups| && sentence in groups[k];
    assert HoldsGroup(pieces, groups, overlap, "", k);
    InkOfMember(groups[k], sentence);
    InsideJoin(Inked(sentence), Taken(pieces, overlap, "", k), InkedAll(groups[k]), "");
    assert Taken(pieces, overlap, "", k) + InkedAll(groups[k]) + "" == Inked(pieces[k]);
  }

  /** Every sentence of prose that is cut is written, up to blanks, in some chunk of the page. */
  lemma {:induction false} PageKeepsSentences(
    patterns: Patterns, prose: Prose, limits: Limits, title: string, blocks: seq<Block>, block: Block, sentence: string)
    returns (k: nat)
    requires LinesKeepInk(prose)
    requires block in blocks && block.kind != HeadingKind && CutAtSentences(block, limits.maximum)
    requires sentence in prose.sentences(TextOf(block)) && Inked(sentence) != ""
    ensures k < |PageChunks(patterns, prose, limits, title, blocks)|
    ensures Inside(Inked(sentence), Inked(PageChunks(patterns, prose, limits, title, blocks)[k].text))
  {
    var sentences := prose.sentences(TextOf(block));
    var texts := SplitProse(sentences, limits.maximum, limits.overlap, "");
    var i := SentenceInPiece(sentences, limits.maximum, limits.overlap, sentence);
    var parts := SplitBlock(patterns, prose, block, limits.maximum, limits.overlap);
    assert parts == ProseBlocks(block, prose, texts);
    var text := TextOf(parts[i]);
    StripKeepsInk(JoinWith(parts[i].lines, "\n"), IsNewline);
    NotEmpty(Inked(sentence), Inked(text));
    InsideItself(text);
    PartOnPage(patterns, prose, limits, title, blocks, block, parts[i], text);
    k :| 0 <= k < |PageChunks(patterns, prose, limits, title, blocks)| &&
      Inside(text, PageChunks(patterns, prose, limits, title, blocks)[k].text);
    InkedInside(text, PageChunks(patterns, prose, limits, title, blocks)[k].text);
    InsideTrans(Inked(sentence), Inked(text), Inked(PageChunks(patterns, prose, limits, title, blocks)[k].text));
  }

  /** A section's heading is the path of some chunk of the page, or a label inside one. */
  ghost predicate HeadingOnPage(page: seq<Chunk>, path: seq<string>)
    requires path != []
  {
    exists k :: 0 <= k < |page| && (page[k].path == path || Inside(Label(path), page[k].text))
  }

  /** Every heading survives: its section's path stands over a chunk, or was merged into one as its
      label. */
  lemma {:induction false} PageKeepsHeadings(
    patterns: Patterns, prose: Prose, limits: Limits, title: string, blocks: seq<Block>, s: nat)
    requires s < |Sections(blocks, START)| && Sections(blocks, START)[s].path != []
    ensures HeadingOnPage(PageChunks(patterns, prose, limits, title, blocks), Sections(blocks, START)[s].path)
  {
    var section := Sections(blocks, START)[s];
    var chunk := SectionChunks(patterns, prose, limits, section)[0];
    ChunkListed(patterns, prose, limits, Sections(blocks, START), s, chunk);
    var runs, merged, _ := PageLosesNothing(patterns, prose, limits, title, blocks);
    var whole := HeadingHeld(runs, merged, chunk);
    StandsOnPage(Kept(merged), PageChunks(patterns, prose, limits, title, blocks), title, whole, section.path);
  }

  lemma {:induction false} HeadingHeld(runs: seq<seq<Chunk>>, merged: seq<Chunk>, chunk: Chunk) returns (whole: Chunk)
    requires RunsHeld(runs, merged) && chunk in Concat(runs) && chunk.path != []
    ensures whole in merged && Shows(whole) && (whole.path == chunk.path || Inside(Label(chunk.path), whole.text))
  {
    ConcatHolds(runs, chunk);
    var r :| 0 <= r < |runs| && chunk in runs[r];
    var k :| 0 <= k < |runs[r]| && runs[r][k] == chunk;
    HeadingInRun(runs[r], merged[r], k);
    whole := merged[r];
  }

  lemma StandsOnPage(kept: seq<Chunk>, page: seq<Chunk>, title: string, whole: Chunk, path: seq<string>)
    requires whole in kept && path != [] && IsPage(page, kept, title)
    requires whole.path == path || Inside(Label(path), whole.text)
    ensures HeadingOnPage(page, path)
  {
    var f :| 0 <= f < |kept| && kept[f] == whole;
    assert page[f] == whole.(ord := f);
  }

  lemma HeadingInRun(run: seq<Chunk>, whole: Chunk, k: nat)
    requires run != [] && HoldsRun(run, whole) && k < |run| && run[k].path != []
    ensures whole.path == run[k].path || Inside(Label(run[k].path), whole.text)
    ensures whole.path != [] || whole.text != ""
  {
    if k > 0 {
      assert LabelInside(run[k], whole);
      NotEmpty(Label(run[k].path), whole.text);
    }
  }
}
