/** Everything stands in the groups of a page exactly once and in order: blocks that fit as they are, and
    the lines and sentences of split blocks once what a piece takes over is dropped. */
module ChunkOnce {
  import opened Common
  import opened PythonText
  import opened ChunkLines
  import opened ChunkSplit
  import opened ChunkPage
  import opened ChunkPageProofs
  import opened ChunkContents

  // ----- blocks that fit -----

  predicate AllFit(blocks: seq<Block>, maximum: nat) {
    forall i :: 0 <= i < |blocks| ==> |TextOf(blocks[i])| <= maximum
  }

  lemma {:induction false} FittingEach(patterns: Patterns, prose: Prose, blocks: seq<Block>, maximum: nat, overlap: nat)
    requires AllFit(blocks, maximum)
    ensures Concat(SplitEach(patterns, prose, blocks, maximum, overlap)) == blocks
    decreases |blocks|
  {
    if blocks != [] {
      SplitEachFirst(patterns, prose, blocks, maximum, overlap);
      FittingEach(patterns, prose, blocks[1..], maximum, overlap);
      assert SplitBlock(patterns, prose, blocks[0], maximum, overlap) == [blocks[0]];
      assert [blocks[0]] + blocks[1..] == blocks;
    }
  }

  /** The groups hold the parts of the section's blocks, once and in order. */
  lemma {:induction false} GroupsHoldParts(patterns: Patterns, prose: Prose, limits: Limits, section: Section)
    ensures Concat(Groups(patterns, prose, limits, section)) ==
      Concat(SplitEach(patterns, prose, section.blocks, limits.maximum, limits.overlap))
  {
    var parts := Concat(SplitEach(patterns, prose, section.blocks, limits.maximum, limits.overlap));
    PackConserves(parts, limits.target);
    ConcatOne<Block>([]);
  }

  /** A section whose blocks all fit is packed as it is: each block once, in order. */
  lemma {:induction false} SectionOnce(patterns: Patterns, prose: Prose, limits: Limits, section: Section)
    requires AllFit(section.blocks, limits.maximum)
    ensures Concat(Groups(patterns, prose, limits, section)) == section.blocks
  {
    GroupsHoldParts(patterns, prose, limits, section);
    FittingEach(patterns, prose, section.blocks, limits.maximum, limits.overlap);
  }

  // ----- where every block of a page stands -----

  /** A block under the texts of the open headings, in the section that starts at a line. */
  datatype Standing = Standing(path: seq<string>, line: nat, block: Block)

  /** Every block that is no heading, under exactly the headings open there. */
  function Under(blocks: seq<Block>, seen: seq<Heading>, line: nat): seq<Standing>
    decreases |blocks|
  {
    if blocks == [] then []
    else if blocks[0].kind == HeadingKind then Under(blocks[1..], seen + [HeadingOf(blocks[0])], blocks[0].start)
    else [Standing(TextsOf(OpenFrom(seen, 0)), line, blocks[0])] + Under(blocks[1..], seen, line)
  }

  function StandingIn(section: Section, blocks: seq<Block>): seq<Standing> {
    seq(|blocks|, i requires 0 <= i < |blocks| => Standing(section.path, section.line, blocks[i]))
  }

  function AllStanding(sections: seq<Section>): seq<Standing> {
    if sections == [] then [] else StandingIn(sections[0], sections[0].blocks) + AllStanding(sections[1..])
  }

  lemma {:induction false} FlushStands(open: Section, rest: seq<Section>)
    ensures AllStanding(Flush(open) + rest) == StandingIn(open, open.blocks) + AllStanding(rest)
  {
    if Flush(open) == [] {
      assert [] + rest == rest;
    } else {
      assert ([open] + rest)[1..] == rest;
    }
  }

  /** The sections hold every block that is no heading once, in order, and under exactly the headings that
      are open where it stands, at the line of the last of them. */
  lemma {:induction false} SectionsHoldTheirBlocks(seen: seq<Heading>, blocks: seq<Block>, scan: Scan)
    requires scan.stack == StackOf(seen) && scan.open.path == TextsOf(scan.stack)
    ensures AllStanding(Sections(blocks, scan)) ==
      StandingIn(scan.open, scan.open.blocks) + Under(blocks, seen, scan.open.line)
    decreases |blocks|
  {
    if blocks == [] {
      FlushStands(scan.open, []);
      assert Flush(scan.open) + [] == Flush(scan.open);
    } else if blocks[0].kind == HeadingKind {
      HeadingStandsFirst(seen, blocks, scan);
    } else {
      var next := scan.(open := scan.open.(blocks := scan.open.blocks + [blocks[0]]));
      SectionsHoldTheirBlocks(seen, blocks[1..], next);
      StackIsOpenHeadings(seen);
      StandsNext(scan.open, next.open, blocks[0]);
      var held, one := StandingIn(scan.open, scan.open.blocks), Standing(scan.open.path, scan.open.line, blocks[0]);
      assert held + [one] + Under(blocks[1..], seen, scan.open.line) == held + Under(blocks, seen, scan.open.line);
    }
  }

  lemma {:induction false} HeadingStandsFirst(seen: seq<Heading>, blocks: seq<Block>, scan: Scan)
    requires scan.stack == StackOf(seen) && scan.open.path == TextsOf(scan.stack)
    requires blocks != [] && blocks[0].kind == HeadingKind
    ensures AllStanding(Sections(blocks, scan)) ==
      StandingIn(scan.open, scan.open.blocks) + Under(blocks, seen, scan.open.line)
    decreases |blocks|, 0
  {
    var stack := PushHeading(scan.stack, HeadingOf(blocks[0]));
    var next := Scan(stack, Section(TextsOf(stack), [], blocks[0].start));
    StackGrows(seen, HeadingOf(blocks[0]));
    SectionsHoldTheirBlocks(seen + [HeadingOf(blocks[0])], blocks[1..], next);
    var rest := Sections(blocks[1..], next);
    FlushStands(scan.open, rest);
    assert StandingIn(next.open, []) + Under(blocks, seen, scan.open.line) == Under(blocks, seen, scan.open.line);
    assert Sections(blocks, scan) == Flush(scan.open) + rest;
  }

  lemma StandsNext(open: Section, next: Section, block: Block)
    requires next == open.(blocks := open.blocks + [block])
    ensures StandingIn(next, next.blocks) ==
      StandingIn(open, open.blocks) + [Standing(open.path, open.line, block)]
  {}

  // ----- the chunks of a page before small siblings merge -----

  /** A group of blocks that is packed into one chunk of its section. */
  datatype Group = Group(section: Section, blocks: seq<Block>)

  function OwnGroups(section: Section, groups: seq<seq<Block>>): seq<Group> {
    seq(|groups|, i requires 0 <= i < |groups| => Group(section, groups[i]))
  }

  /** The groups of all sections, one for each chunk. */
  function PageGroups(patterns: Patterns, prose: Prose, limits: Limits, sections: seq<Section>): seq<Group> {
    if sections == [] then []
    else
      var own := OwnGroups(sections[0], Groups(patterns, prose, limits, sections[0]));
      own + PageGroups(patterns, prose, limits, sections[1..])
  }

  function GroupsStanding(groups: seq<Group>): seq<Standing> {
    if groups == [] then [] else StandingIn(groups[0].section, groups[0].blocks) + GroupsStanding(groups[1..])
  }

  /** A chunk says what its group says, the texts of the blocks with empty lines between, under the
      section's headings and from the first block's first line to the last block's last, or at the
      section's line without blocks; only a block alone that is no prose gives it its kind. */
  predicate Says(chunk: Chunk, group: Group) {
    var blocks := group.blocks;
    && chunk.text == JoinWith(GroupTexts(blocks), "\n\n") && chunk.path == group.section.path
    && chunk.start == (if blocks == [] then group.section.line else blocks[0].start)
    && chunk.end == (if blocks == [] then group.section.line else blocks[|blocks| - 1].end)
    && (chunk.kind != SectionChunk <==> |blocks| == 1 && blocks[0].kind != ParagraphKind)
    && (chunk.kind != SectionChunk ==> chunk.kind == BlockChunk(blocks[0].kind))
  }

  predicate AllSay(chunks: seq<Chunk>, groups: seq<Group>) {
    |chunks| == |groups| && forall i :: 0 <= i < |chunks| ==> Says(chunks[i], groups[i])
  }

  lemma SectionSays(patterns: Patterns, prose: Prose, limits: Limits, section: Section)
    ensures AllSay(SectionChunks(patterns, prose, limits, section),
                   OwnGroups(section, Groups(patterns, prose, limits, section)))
  {}

  lemma AllSayJoin(a: seq<Chunk>, ga: seq<Group>, b: seq<Chunk>, gb: seq<Group>)
    requires AllSay(a, ga) && AllSay(b, gb)
    ensures AllSay(a + b, ga + gb)
  {}

  lemma {:induction false} ChunksSayGroups(patterns: Patterns, prose: Prose, limits: Limits, sections: seq<Section>)
    ensures AllSay(AllChunks(patterns, prose, limits, sections), PageGroups(patterns, prose, limits, sections))
    decreases |sections|
  {
    if sections != [] {
      ChunksSayGroups(patterns, prose, limits, sections[1..]);
      SectionSays(patterns, prose, limits, sections[0]);
      AllSayJoin(
        SectionChunks(patterns, prose, limits, sections[0]),
        OwnGroups(sections[0], Groups(patterns, prose, limits, sections[0])),
        AllChunks(patterns, prose, limits, sections[1..]), PageGroups(patterns, prose, limits, sections[1..]));
    }
  }

  lemma {:induction false} GroupsStandJoin(a: seq<Group>, b: seq<Group>)
    ensures GroupsStanding(a + b) == GroupsStanding(a) + GroupsStanding(b)
    decreases |a|
  {
    if a == [] {
      assert a + b == b;
    } else {
      assert (a + b)[1..] == a[1..] + b;
      GroupsStandJoin(a[1..], b);
    }
  }

  lemma {:induction false} OwnGroupsStand(section: Section, groups: seq<seq<Block>>)
    ensures GroupsStanding(OwnGroups(section, groups)) == StandingIn(section, Concat(groups))
    decreases |groups|
  {
    if groups == [] {
      assert Concat(groups) == [];
    } else {
      OwnGroupsStand(section, groups[1..]);
      assert OwnGroups(section, groups)[1..] == OwnGroups(section, groups[1..]);
      StandJoin(section, groups[0], Concat(groups[1..]));
    }
  }

  lemma StandJoin(section: Section, a: seq<Block>, b: seq<Block>)
    ensures StandingIn(section, a + b) == StandingIn(section, a) + StandingIn(section, b)
  {}

  lemma {:induction false} GroupsStand(patterns: Patterns, prose: Prose, limits: Limits, sections: seq<Section>)
    requires AllFit(SectionBodies(sections), limits.maximum)
    ensures GroupsStanding(PageGroups(patterns, prose, limits, sections)) == AllStanding(sections)
    decreases |sections|
  {
    if sections != [] {
      var own, rest := sections[0].blocks, SectionBodies(sections[1..]);
      var all := SectionBodies(sections);
      assert forall i :: 0 <= i < |own| ==> all[i] == own[i];
      assert forall i :: 0 <= i < |rest| ==> all[|own| + i] == rest[i];
      SectionOnce(patterns, prose, limits, sections[0]);
      GroupsStand(patterns, prose, limits, sections[1..]);
      OwnGroupsStand(sections[0], Groups(patterns, prose, limits, sections[0]));
      GroupsStandJoin(OwnGroups(sections[0], Groups(patterns, prose, limits, sections[0])),
                      PageGroups(patterns, prose, limits, sections[1..]));
    }
  }

  /** On a page whose blocks all fit, the chunks before merging say exactly the blocks that are no
      headings, each once, in page order, and under the headings open where it stands. */
  lemma {:induction false} PageOnce(patterns: Patterns, prose: Prose, limits: Limits, blocks: seq<Block>)
    returns (groups: seq<Group>)
    requires AllFit(Bodies(blocks), limits.maximum)
    ensures GroupsStanding(groups) == Under(blocks, [], 1)
    ensures AllSay(AllChunks(patterns, prose, limits, Sections(blocks, START)), groups)
  {
    var sections := Sections(blocks, START);
    groups := PageGroups(patterns, prose, limits, sections);
    SectionsConserve(blocks, START);
    assert [] + Bodies(blocks) == Bodies(blocks);
    GroupsStand(patterns, prose, limits, sections);
    PageStands(blocks);
    ChunksSayGroups(patterns, prose, limits, sections);
  }

  lemma {:induction false} PageStands(blocks: seq<Block>)
    ensures AllStanding(Sections(blocks, START)) == Under(blocks, [], 1)
  {
    assert TextsOf([]) == [];
    SectionsHoldTheirBlocks([], blocks, START);
    assert StandingIn(START.open, START.open.blocks) == [];
  }

  // ----- how long a packed text is -----

  lemma {:induction false} JoinedLength(parts: seq<string>, separator: string)
    requires parts != []
    ensures |JoinWith(parts, separator)| + |separator| == Lengths(parts, |separator|)
    decreases |parts|
  {
    if |parts| > 1 { JoinedLength(parts[1..], separator); } else { assert parts[1..] == []; }
  }

  function Lengths(parts: seq<string>, gap: nat): nat {
    if parts == [] then 0 else |parts[0]| + gap + Lengths(parts[1..], gap)
  }

  lemma {:induction false} LengthsAppend(parts: seq<string>, part: string, gap: nat)
    ensures Lengths(parts + [part], gap) == Lengths(parts, gap) + |part| + gap
    decreases |parts|
  {
    if parts == [] {
      assert [part][1..] == [];
    } else {
      assert (parts + [part])[1..] == parts[1..] + [part];
      LengthsAppend(parts[1..], part, gap);
    }
  }

  /** The running size of a group is the length of its text and one more blank line. */
  lemma {:induction false} SizeIsLength(group: seq<Block>)
    ensures Size(group) == Lengths(GroupTexts(group), 2)
    ensures group != [] ==> |JoinWith(GroupTexts(group), "\n\n")| + 2 == Size(group)
    decreases |group|
  {
    if group != [] {
      var front, last := group[..|group| - 1], group[|group| - 1];
      SizeIsLength(front);
      assert GroupTexts(group) == GroupTexts(front) + [TextOf(last)];
      LengthsAppend(GroupTexts(front), TextOf(last), 2);
      JoinedLength(GroupTexts(group), "\n\n");
    }
  }

  /** A packed text stays below the target unless it is a single part, and a group is closed only when
      the next part would have taken its text over it. */
  lemma {:induction false} PackedTexts(parts: seq<Block>, target: nat, k: nat)
    requires k < |Pack(parts, target, [])|
    ensures var groups := Pack(parts, target, []);
      && groups[k] != []
      && (|groups[k]| > 1 ==> |JoinWith(GroupTexts(groups[k]), "\n\n")| + 2 <= target)
      && (k > 0 ==> |JoinWith(GroupTexts(groups[k - 1]), "\n\n")| + |TextOf(groups[k][0])| + 4 > target)
  {
    var groups := Pack(parts, target, []);
    PackConserves(parts, target);
    assert GroupFits(groups[k], target);
    SizeIsLength(groups[k]);
    if k > 0 {
      assert GroupFits(groups[k - 1], target) && HadToClose(groups, target, k);
      SizeIsLength(groups[k - 1]);
    }
  }

  // ----- blocks that are split -----

  predicate Suffix<T(==)>(part: seq<T>, whole: seq<T>) {
    |part| <= |whole| && whole[|whole| - |part|..] == part
  }

  /** First lines of the piece before, as a table's header, and then its last ones. */
  ghost predicate TakenFrom(lines: seq<string>, taken: seq<string>) {
    exists a, b :: taken == a + b && a <= lines && Suffix(b, lines)
  }

  /** Part `k` holds lines of its own, and before them only lines it takes over from the part before. */
  ghost predicate LineOwn(parts: seq<Block>, owns: seq<seq<string>>, k: nat)
    requires k < |parts| && k < |owns|
  {
    exists taken :: parts[k].lines == taken + owns[k] &&
      (taken == [] || (k > 0 && owns[k] != [] && TakenFrom(parts[k - 1].lines, taken)))
  }

  ghost predicate LinesOwned(parts: seq<Block>, owns: seq<seq<string>>) {
    |owns| == |parts| && forall k :: 0 <= k < |parts| ==> LineOwn(parts, owns, k)
  }

  lemma OwnedJoin(a: seq<Block>, owned: seq<seq<string>>, b: seq<Block>, owning: seq<seq<string>>)
    requires LinesOwned(a, owned) && LinesOwned(b, owning)
    ensures LinesOwned(a + b, owned + owning)
  {
    var parts, owns := a + b, owned + owning;
    forall k | 0 <= k < |parts| ensures LineOwn(parts, owns, k) {
      if k < |a| {
        assert LineOwn(a, owned, k);
        var taken :| a[k].lines == taken + owned[k] &&
          (taken == [] || (k > 0 && owned[k] != [] && TakenFrom(a[k - 1].lines, taken)));
        assert parts[k].lines == taken + owns[k];
      } else {
        var i := k - |a|;
        assert LineOwn(b, owning, i);
        var taken :| b[i].lines == taken + owning[i] &&
          (taken == [] || (i > 0 && owning[i] != [] && TakenFrom(b[i - 1].lines, taken)));
        assert parts[k].lines == taken + owns[k];
      }
    }
  }

  /** The items each piece adds. */
  function NewParts<T>(pieces: seq<seq<T>>, carry: nat, skip: nat): seq<seq<T>>
    decreases |pieces|
  {
    if pieces == [] then []
    else
      [if skip <= |pieces[0]| then pieces[0][skip..] else []] +
      NewParts(pieces[1..], carry, if |pieces[0]| < carry then |pieces[0]| else carry)
  }

  lemma {:induction false} NewPartsAre<T>(pieces: seq<seq<T>>, carry: nat, skip: nat)
    ensures Concat(NewParts(pieces, carry, skip)) == NewItems(pieces, carry, skip)
    ensures |NewParts(pieces, carry, skip)| == |pieces|
    decreases |pieces|
  {
    if pieces != [] {
      var next := if |pieces[0]| < carry then |pieces[0]| else carry;
      NewPartsAre(pieces[1..], carry, next);
      assert NewParts(pieces, carry, skip)[1..] == NewParts(pieces[1..], carry, next);
    }
  }

  lemma {:induction false} NewPartAt<T>(pieces: seq<seq<T>>, carry: nat, skip: nat, k: nat)
    requires k < |pieces|
    ensures k < |NewParts(pieces, carry, skip)|
    ensures var from := if k == 0 then skip else Carried(pieces, k, carry);
      NewParts(pieces, carry, skip)[k] == if from <= |pieces[k]| then pieces[k][from..] else []
    decreases |pieces|
  {
    var next := if |pieces[0]| < carry then |pieces[0]| else carry;
    if k > 0 {
      NewPartAt(pieces[1..], carry, next, k - 1);
      if k > 1 { assert pieces[1..][k - 2] == pieces[k - 1]; }
    }
  }

  lemma {:induction false} TableOwned(
    patterns: Patterns, prose: Prose, block: Block, maximum: nat, overlap: nat) returns (owns: seq<seq<string>>)
    requires block.kind == TableKind && |TextOf(block)| > maximum
    ensures LinesOwned(SplitBlock(patterns, prose, block, maximum, overlap), owns) && Concat(owns) == block.lines
  {
    var pieces, header := TableSplitConserves(patterns, prose, block, maximum, overlap);
    var parts := SplitBlock(patterns, prose, block, maximum, overlap);
    var added := NewParts(pieces, 1, 0);
    NewPartsAre(pieces, 1, 0);
    TableHasRows(patterns, block, maximum, header, NewItems(pieces, 1, 0));
    owns := [header + added[0]] + added[1..];
    HeaderFirst(header, added, owns);
    forall k | 0 <= k < |parts| ensures LineOwn(parts, owns, k) {
      NewPartAt(pieces, 1, 0, k);
      assert k > 0 ==> RowDidNotFit(pieces, header, maximum, k);
      TablePartOwn(header, pieces, added, parts, owns, k);
    }
  }

  lemma {:induction false} TablePartOwn(
    header: seq<string>, pieces: seq<seq<string>>, added: seq<seq<string>>, parts: seq<Block>, owns: seq<seq<string>>,
    k: nat)
    requires k < |parts| == |pieces| == |added| && owns == [header + added[0]] + added[1..] && Chained(pieces, 1)
    requires forall i :: 0 <= i < |pieces| ==> parts[i].lines == header + pieces[i]
    requires var from := if k == 0 then 0 else Carried(pieces, k, 1);
      added[k] == if from <= |pieces[k]| then pieces[k][from..] else []
    requires k > 0 ==> Carried(pieces, k, 1) < |pieces[k]|
    ensures LineOwn(parts, owns, k)
  {
    if k == 0 {
      assert pieces[0][0..] == pieces[0];
      assert parts[0].lines == [] + owns[0];
    } else {
      assert GoesOn(pieces, 1, k);
      RowsOwn(header, pieces[k - 1], pieces[k], parts[k - 1].lines, parts[k].lines, owns[k]);
    }
  }

  /** A piece of a table takes over the header and the last row. */
  lemma RowsOwn(header: seq<string>, before: seq<string>, piece: seq<string>, was: seq<string>, lines: seq<string>,
                own: seq<string>)
    requires was == header + before && lines == header + piece
    requires Last(before, 1) <= piece && own == piece[|Last(before, 1)|..]
    ensures exists taken :: lines == taken + own && TakenFrom(was, taken)
  {
    var carried := Last(before, 1);
    var taken := header + carried;
    assert lines == taken + own;
    assert Suffix(carried, was) && header <= was;
  }

  lemma TableHasRows(patterns: Patterns, block: Block, maximum: nat, header: seq<string>, rows: seq<string>)
    requires |TextOf(block)| > maximum && Headed(patterns, block.lines, header, rows)
    ensures rows != []
  {
    if rows == [] { EmptyText(block); }
  }

  lemma EmptyText(block: Block)
    requires block.lines == []
    ensures TextOf(block) == ""
  {
    assert JoinWith(block.lines, "\n") == "";
  }

  lemma {:induction false} HeaderFirst(header: seq<string>, added: seq<seq<string>>, owns: seq<seq<string>>)
    requires added != [] && owns == [header + added[0]] + added[1..]
    ensures Concat(owns) == header + Concat(added)
  {
    assert owns[1..] == added[1..];
    assert header + added[0] + Concat(added[1..]) == header + (added[0] + Concat(added[1..]));
  }

  function ConcatAll(groups: seq<seq<seq<string>>>): seq<seq<string>> {
    seq(|groups|, i requires 0 <= i < |groups| => Concat(groups[i]))
  }

  lemma {:induction false} ConcatTwice(groups: seq<seq<seq<string>>>)
    ensures Concat(ConcatAll(groups)) == Concat(Concat(groups))
    decreases |groups|
  {
    if groups != [] {
      ConcatTwice(groups[1..]);
      ConcatSplit(groups[0], Concat(groups[1..]));
      assert ConcatAll(groups)[1..] == ConcatAll(groups[1..]);
    }
  }

  lemma {:induction false} ListOwned(
    patterns: Patterns, prose: Prose, block: Block, maximum: nat, overlap: nat) returns (owns: seq<seq<string>>)
    requires (block.kind == ListKind || block.kind == CodeKind) && |TextOf(block)| > maximum
    ensures LinesOwned(SplitBlock(patterns, prose, block, maximum, overlap), owns) && Concat(owns) == block.lines
  {
    var pieces := ListSplitConserves(patterns, prose, block, maximum, overlap);
    var carry := if block.kind == ListKind then 2 else 0;
    var items := NewItems(pieces, carry, 0);
    var parts := SplitBlock(patterns, prose, block, maximum, overlap);
    var added := NewParts(pieces, carry, 0);
    NewPartsAre(pieces, carry, 0);
    owns := ConcatAll(added);
    ConcatTwice(added);
    forall i | 0 <= i < |items| ensures items[i] != [] {
      if block.kind == ListKind { assert IsItem(patterns, items[i], i == 0); }
    }
    forall k | 0 <= k < |pieces| ensures parts[k].lines == Concat(pieces[k]) {
      assert parts[k].lines == [] + Concat(pieces[k]);
    }
    forall k | 0 <= k < |parts| ensures LineOwn(parts, owns, k) {
      NewPartAt(pieces, carry, 0, k);
      ItemsOwn(pieces, carry, items, added, parts, owns, k);
    }
  }

  lemma {:induction false} ItemsOwn(
    pieces: seq<seq<seq<string>>>, carry: nat, items: seq<seq<string>>, added: seq<seq<seq<string>>>,
    parts: seq<Block>, owns: seq<seq<string>>, k: nat)
    requires k < |parts| == |owns| == |pieces| == |added| && Chained(pieces, carry)
    requires Concat(added) == items && forall i :: 0 <= i < |items| ==> items[i] != []
    requires forall i :: 0 <= i < |pieces| ==> parts[i].lines == Concat(pieces[i])
    requires owns[k] == Concat(added[k])
    requires var from := if k == 0 then 0 else Carried(pieces, k, carry);
      added[k] == if from <= |pieces[k]| then pieces[k][from..] else []
    ensures LineOwn(parts, owns, k)
  {
    if k == 0 {
      assert pieces[0][0..] == pieces[0];
      assert parts[0].lines == [] + owns[0];
    } else {
      assert GoesOn(pieces, carry, k);
      PieceOwn(pieces[k - 1], pieces[k], carry, parts[k - 1].lines, parts[k].lines, owns[k]);
      SomeNew(added, items, k);
    }
  }

  /** The carried items are the last lines of the piece before. */
  lemma {:induction false} PieceOwn(
    before: seq<seq<string>>, piece: seq<seq<string>>, carry: nat, was: seq<string>, lines: seq<string>,
    own: seq<string>)
    requires Last(before, carry) <= piece && own == Concat(piece[|Last(before, carry)|..])
    requires was == Concat(before) && lines == Concat(piece)
    ensures exists taken :: lines == taken + own && TakenFrom(was, taken)
  {
    var carried := Last(before, carry);
    var front := before[..|before| - |carried|];
    assert before == front + carried && piece == carried + piece[|carried|..];
    ConcatSplit(front, carried);
    ConcatSplit(carried, piece[|carried|..]);
    var taken := Concat(carried);
    assert Suffix(taken, was) && taken == [] + taken && [] <= was;
    assert lines == taken + own;
  }

  lemma {:induction false} SomeNew(added: seq<seq<seq<string>>>, items: seq<seq<string>>, k: nat)
    requires k < |added| && added[k] != [] && Concat(added) == items
    requires forall i :: 0 <= i < |items| ==> items[i] != []
    ensures Concat(added[k]) != []
  {
    ConcatHolds(added, added[k][0]);
    assert added[k][0] in items;
  }

  // ----- a whole section -----

  /** Part `k` is written with sentences of its own after the end of the part before. */
  ghost predicate SentencesOwn(parts: seq<Block>, owns: seq<seq<string>>, k: nat)
    requires k < |parts| && k < |owns|
  {
    exists front :: Inked(TextOf(parts[k])) == front + InkedAll(owns[k]) && owns[k] != [] &&
      (if k == 0 then front == "" else Suffix(front, Inked(TextOf(parts[k - 1]))))
  }

  /** What a block's parts own, in order, is exactly the block: its lines, or its sentences if it is
      cut at sentences, where blank ones can be left over at the end. */
  ghost predicate BlockOwned(
    patterns: Patterns, prose: Prose, block: Block, maximum: nat, overlap: nat, owns: seq<seq<string>>)
  {
    var parts := SplitBlock(patterns, prose, block, maximum, overlap);
    if !CutAtSentences(block, maximum) then LinesOwned(parts, owns) && Concat(owns) == block.lines
    else
      && |owns| == |parts| && (forall k :: 0 <= k < |parts| ==> SentencesOwn(parts, owns, k))
      && exists dropped :: Concat(owns) + dropped == prose.sentences(TextOf(block)) && InkedAll(dropped) == ""
  }

  lemma {:induction false} TailInk(text: string, n: nat)
    ensures Suffix(Inked(Tail(text, n)), Inked(text))
  {
    var from := if |text| < n then 0 else |text| - n;
    assert text == text[..from] + text[from..];
    InkedJoin(text[..from], text[from..]);
  }

  lemma {:induction false} ProseOwned(
    patterns: Patterns, prose: Prose, block: Block, maximum: nat, overlap: nat) returns (owns: seq<seq<string>>)
    requires LinesKeepInk(prose) && CutAtSentences(block, maximum)
    ensures BlockOwned(patterns, prose, block, maximum, overlap, owns)
  {
    var sentences := prose.sentences(TextOf(block));
    var texts := SplitProse(sentences, maximum, overlap, "");
    var parts := SplitBlock(patterns, prose, block, maximum, overlap);
    assert parts == ProseBlocks(block, prose, texts);
    var dropped;
    owns, dropped := ProseConserves(sentences, maximum, overlap);
    forall k | 0 <= k < |parts| ensures Inked(TextOf(parts[k])) == Inked(texts[k]) {
      StripKeepsInk(JoinWith(parts[k].lines, "\n"), IsNewline);
    }
    forall k | 0 <= k < |parts| ensures SentencesOwn(parts, owns, k) {
      assert HoldsGroup(texts, owns, overlap, "", k);
      if k > 0 { TailInk(texts[k - 1], overlap); }
    }
  }

  lemma {:induction false} BlockIsOwned(
    patterns: Patterns, prose: Prose, block: Block, maximum: nat, overlap: nat) returns (owns: seq<seq<string>>)
    requires LinesKeepInk(prose)
    ensures BlockOwned(patterns, prose, block, maximum, overlap, owns)
  {
    if CutAtSentences(block, maximum) {
      owns := ProseOwned(patterns, prose, block, maximum, overlap);
    } else {
      owns := UncutOwned(patterns, prose, block, maximum, overlap);
    }
  }

  /** For every section: its groups hold the parts of its blocks, once and in order, and the parts of
      each block, without what they take over from the part before, are exactly that block. */
  lemma {:induction false} SectionConserved(patterns: Patterns, prose: Prose, limits: Limits, section: Section)
    returns (owns: seq<seq<seq<string>>>)
    requires LinesKeepInk(prose)
    ensures Concat(Groups(patterns, prose, limits, section)) ==
      Concat(SplitEach(patterns, prose, section.blocks, limits.maximum, limits.overlap))
    ensures |owns| == |section.blocks| && forall b :: 0 <= b < |owns| ==>
      BlockOwned(patterns, prose, section.blocks[b], limits.maximum, limits.overlap, owns[b])
  {
    GroupsHoldParts(patterns, prose, limits, section);
    owns := BlocksOwned(patterns, prose, section.blocks, limits.maximum, limits.overlap);
  }

  lemma {:induction false} BlocksOwned(
    patterns: Patterns, prose: Prose, blocks: seq<Block>, maximum: nat, overlap: nat)
    returns (owns: seq<seq<seq<string>>>)
    requires LinesKeepInk(prose)
    ensures |owns| == |blocks| && forall b :: 0 <= b < |owns| ==>
      BlockOwned(patterns, prose, blocks[b], maximum, overlap, owns[b])
    decreases |blocks|
  {
    if blocks == [] {
      owns := [];
    } else {
      var first := BlockIsOwned(patterns, prose, blocks[0], maximum, overlap);
      var rest := BlocksOwned(patterns, prose, blocks[1..], maximum, overlap);
      owns := [first] + rest;
      forall b | 0 <= b < |owns| ensures BlockOwned(patterns, prose, blocks[b], maximum, overlap, owns[b]) {
        if b > 0 { assert owns[b] == rest[b - 1] && blocks[b] == blocks[1..][b - 1]; }
      }
    }
  }

  function LinesOf(blocks: seq<Block>): seq<string> {
    if blocks == [] then [] else blocks[0].lines + LinesOf(blocks[1..])
  }

  /** In a section without prose that is cut, every line stands in the groups exactly as often as on the
      page and in that order, once what pieces take over is dropped. */
  lemma {:induction false} SectionLinesOnce(patterns: Patterns, prose: Prose, limits: Limits, section: Section)
    returns (owns: seq<seq<string>>)
    requires forall b :: 0 <= b < |section.blocks| ==> !CutAtSentences(section.blocks[b], limits.maximum)
    ensures LinesOwned(Concat(Groups(patterns, prose, limits, section)), owns)
    ensures Concat(owns) == LinesOf(section.blocks)
  {
    GroupsHoldParts(patterns, prose, limits, section);
    owns := EachLineOnce(patterns, prose, section.blocks, limits.maximum, limits.overlap);
  }

  lemma {:induction false} EachLineOnce(
    patterns: Patterns, prose: Prose, blocks: seq<Block>, maximum: nat, overlap: nat)
    returns (owns: seq<seq<string>>)
    requires forall b :: 0 <= b < |blocks| ==> !CutAtSentences(blocks[b], maximum)
    ensures LinesOwned(Concat(SplitEach(patterns, prose, blocks, maximum, overlap)), owns)
    ensures Concat(owns) == LinesOf(blocks)
    decreases |blocks|
  {
    if blocks == [] {
      owns := [];
    } else {
      var first := UncutOwned(patterns, prose, blocks[0], maximum, overlap);
      var rest := EachLineOnce(patterns, prose, blocks[1..], maximum, overlap);
      SplitEachFirst(patterns, prose, blocks, maximum, overlap);
      OwnedJoin(SplitBlock(patterns, prose, blocks[0], maximum, overlap), first,
                Concat(SplitEach(patterns, prose, blocks[1..], maximum, overlap)), rest);
      ConcatSplit(first, rest);
      owns := first + rest;
    }
  }

  lemma {:induction false} UncutOwned(
    patterns: Patterns, prose: Prose, block: Block, maximum: nat, overlap: nat) returns (owns: seq<seq<string>>)
    requires !CutAtSentences(block, maximum)
    ensures LinesOwned(SplitBlock(patterns, prose, block, maximum, overlap), owns) && Concat(owns) == block.lines
  {
    if |TextOf(block)| <= maximum {
      owns := [block.lines];
      ConcatOne(block.lines);
      assert SplitBlock(patterns, prose, block, maximum, overlap)[0].lines == [] + owns[0];
    } else if block.kind == TableKind {
      owns := TableOwned(patterns, prose, block, maximum, overlap);
    } else {
      owns := ListOwned(patterns, prose, block, maximum, overlap);
    }
  }
}
