/** Sections, chunks and the merge of small siblings (apps/daemon/graite/index/chunker.py:264-327). */
module ChunkPage {
  import opened Common
  import opened PythonText
  import opened ChunkLines
  import opened ChunkSplit

  datatype Heading = Heading(level: nat, text: string)

  /** A heading path, the blocks under it, and the heading's line. */
  datatype Section = Section(path: seq<string>, blocks: seq<Block>, line: nat)

  datatype ChunkKind = SectionChunk | BlockChunk(kind: Kind) | TitleChunk

  datatype Chunk = Chunk(ord: nat, kind: ChunkKind, path: seq<string>, start: nat, end: nat, text: string)

  datatype Limits = Limits(target: nat, maximum: nat, minimum: nat, overlap: nat)

  // ----- the heading stack -----

  function Pop(stack: seq<Heading>, level: nat): (r: seq<Heading>)
    ensures r <= stack
    ensures r != [] ==> r[|r| - 1].level < level
  {
    if stack != [] && stack[|stack| - 1].level >= level then Pop(stack[..|stack| - 1], level) else stack
  }

  function PushHeading(stack: seq<Heading>, heading: Heading): seq<Heading> {
    Pop(stack, heading.level) + [heading]
  }

  /** The stack after a sequence of headings. */
  function StackOf(headings: seq<Heading>): seq<Heading> {
    if headings == [] then [] else PushHeading(StackOf(headings[..|headings| - 1]), headings[|headings| - 1])
  }

  /** Heading `j` is still open: every later heading is strictly deeper. */
  predicate Open(headings: seq<Heading>, j: nat)
    requires j < |headings|
  {
    forall k :: j < k < |headings| ==> headings[k].level > headings[j].level
  }

  /** The open headings among `headings[j..]`, in order. */
  function OpenFrom(headings: seq<Heading>, j: nat): seq<Heading>
    requires j <= |headings|
    decreases |headings| - j
  {
    if j == |headings| then [] else (if Open(headings, j) then [headings[j]] else []) + OpenFrom(headings, j + 1)
  }

  predicate StrictlyDeeper(stack: seq<Heading>) {
    forall i, j :: 0 <= i < j < |stack| ==> stack[i].level < stack[j].level
  }

  function Shallower(stack: seq<Heading>, level: nat): seq<Heading> {
    if stack == [] then [] else (if stack[0].level < level then [stack[0]] else []) + Shallower(stack[1..], level)
  }

  lemma {:induction false} ShallowerAppend(a: seq<Heading>, b: seq<Heading>, level: nat)
    ensures Shallower(a + b, level) == Shallower(a, level) + Shallower(b, level)
    decreases |a|
  {
    if a == [] {
      assert a + b == b;
    } else {
      assert (a + b)[1..] == a[1..] + b;
      ShallowerAppend(a[1..], b, level);
    }
  }

  lemma {:induction false} AllShallower(stack: seq<Heading>, level: nat)
    requires forall i :: 0 <= i < |stack| ==> stack[i].level < level
    ensures Shallower(stack, level) == stack
    decreases |stack|
  {
    if stack != [] { AllShallower(stack[1..], level); }
  }

  /** On a stack of increasing levels popping from the top keeps exactly the shallower headings. */
  lemma {:induction false} PopIsShallower(stack: seq<Heading>, level: nat)
    requires StrictlyDeeper(stack)
    ensures Pop(stack, level) == Shallower(stack, level)
    decreases |stack|
  {
    if stack != [] && stack[|stack| - 1].level >= level {
      var front, last := stack[..|stack| - 1], stack[|stack| - 1];
      PopIsShallower(front, level);
      ShallowerAppend(front, [last], level);
      assert [last][1..] == [];
      assert stack == front + [last];
    } else if stack != [] {
      forall i | 0 <= i < |stack| ensures stack[i].level < level {
        assert i < |stack| - 1 ==> stack[i].level < stack[|stack| - 1].level;
      }
      AllShallower(stack, level);
    }
  }

  lemma {:induction false} OpenFromAppend(headings: seq<Heading>, heading: Heading, j: nat)
    requires j <= |headings|
    ensures OpenFrom(headings + [heading], j) == Shallower(OpenFrom(headings, j), heading.level) + [heading]
    decreases |headings| - j
  {
    var all := headings + [heading];
    if j == |headings| {
      assert OpenFrom(all, j + 1) == [];
      assert Open(all, j);
    } else {
      OpenFromAppend(headings, heading, j + 1);
      OpenAppend(headings, heading, j);
      assert all[j] == headings[j];
      ShallowerFirst(headings[j], OpenFrom(headings, j + 1), heading.level, Open(headings, j));
    }
  }

  lemma {:induction false} ShallowerFirst(first: Heading, rest: seq<Heading>, level: nat, open: bool)
    ensures Shallower((if open then [first] else []) + rest, level)
      == (if open && level > first.level then [first] else []) + Shallower(rest, level)
  {
    if open {
      assert ([first] + rest)[1..] == rest;
    } else {
      assert [] + rest == rest;
    }
  }

  lemma OpenAppend(headings: seq<Heading>, heading: Heading, j: nat)
    requires j < |headings|
    ensures Open(headings + [heading], j) <==> Open(headings, j) && heading.level > headings[j].level
  {
    var all := headings + [heading];
    assert all[|headings|] == heading;
    if Open(all, j) {
      forall k | j < k < |headings| ensures headings[k].level > headings[j].level { assert all[k] == headings[k]; }
    }
  }

  /** The stack's meaning: it lists exactly the headings no later heading has closed, from the
      outermost in, and their levels strictly increase. */
  lemma {:induction false} StackIsOpenHeadings(headings: seq<Heading>)
    ensures StackOf(headings) == OpenFrom(headings, 0) && StrictlyDeeper(StackOf(headings))
    decreases |headings|
  {
    if headings != [] {
      var front, last := headings[..|headings| - 1], headings[|headings| - 1];
      StackIsOpenHeadings(front);
      PushedStack(front, last);
      assert headings == front + [last];
    }
  }

  lemma {:induction false} PushedStack(front: seq<Heading>, last: Heading)
    requires StackOf(front) == OpenFrom(front, 0) && StrictlyDeeper(StackOf(front))
    ensures PushHeading(StackOf(front), last) == OpenFrom(front + [last], 0)
      && StrictlyDeeper(PushHeading(StackOf(front), last))
  {
    PopIsShallower(StackOf(front), last.level);
    OpenFromAppend(front, last, 0);
    PushStaysDeeper(StackOf(front), last);
  }

  lemma PushStaysDeeper(stack: seq<Heading>, heading: Heading)
    requires StrictlyDeeper(stack)
    ensures StrictlyDeeper(PushHeading(stack, heading))
  {
    var kept := Pop(stack, heading.level);
    forall i | 0 <= i < |kept|
      ensures kept[i].level < heading.level
    {
      assert i < |kept| - 1 ==> stack[i].level < stack[|kept| - 1].level;
      assert kept[|kept| - 1] == stack[|kept| - 1];
    }
  }

  // ----- sections -----

  function TextsOf(stack: seq<Heading>): (texts: seq<string>)
    ensures |texts| == |stack|
  {
    seq(|stack|, i requires 0 <= i < |stack| => stack[i].text)
  }

  /** The state of the section loop: headings seen, open section. */
  datatype Scan = Scan(stack: seq<Heading>, open: Section)

  function Flush(open: Section): seq<Section> {
    if open.blocks != [] || open.path != [] then [open] else []
  }

  function HeadingOf(block: Block): Heading {
    Heading(block.level, block.heading)
  }

  /** Sections of the remaining blocks. */
  function Sections(blocks: seq<Block>, scan: Scan): seq<Section>
    decreases |blocks|
  {
    if blocks == [] then Flush(scan.open)
    else if blocks[0].kind == HeadingKind then
      var stack := PushHeading(scan.stack, HeadingOf(blocks[0]));
      Flush(scan.open) + Sections(blocks[1..], Scan(stack, Section(TextsOf(stack), [], blocks[0].start)))
    else Sections(blocks[1..], scan.(open := scan.open.(blocks := scan.open.blocks + [blocks[0]])))
  }

  const START := Scan([], Section([], [], 1))

  /** The headings among the blocks. */
  function HeadingsOf(blocks: seq<Block>): seq<Heading> {
    if blocks == [] then []
    else (if blocks[0].kind == HeadingKind then [HeadingOf(blocks[0])] else []) + HeadingsOf(blocks[1..])
  }

  /** The blocks that are not headings, in order. */
  function Bodies(blocks: seq<Block>): seq<Block> {
    if blocks == [] then [] else (if blocks[0].kind == HeadingKind then [] else [blocks[0]]) + Bodies(blocks[1..])
  }

  function SectionBodies(sections: seq<Section>): seq<Block> {
    if sections == [] then [] else sections[0].blocks + SectionBodies(sections[1..])
  }

  lemma {:induction false} SectionBodiesSplit(a: seq<Section>, b: seq<Section>)
    ensures SectionBodies(a + b) == SectionBodies(a) + SectionBodies(b)
    decreases |a|
  {
    if a == [] {
      assert a + b == b;
    } else {
      assert (a + b)[1..] == a[1..] + b;
      SectionBodiesSplit(a[1..], b);
    }
  }

  /** Sections partition the body blocks: none is lost, doubled or moved. */
  lemma {:induction false} SectionsConserve(blocks: seq<Block>, scan: Scan)
    ensures SectionBodies(Sections(blocks, scan)) == scan.open.blocks + Bodies(blocks)
    decreases |blocks|
  {
    if blocks != [] {
      if blocks[0].kind == HeadingKind {
        var stack := PushHeading(scan.stack, HeadingOf(blocks[0]));
        var next := Scan(stack, Section(TextsOf(stack), [], blocks[0].start));
        SectionsConserve(blocks[1..], next);
        SectionBodiesSplit(Flush(scan.open), Sections(blocks[1..], next));
        assert [scan.open][1..] == [];
      } else {
        SectionsConserve(blocks[1..], scan.(open := scan.open.(blocks := scan.open.blocks + [blocks[0]])));
      }
    } else {
      assert [scan.open][1..] == [];
    }
  }

  function PathsOf(sections: seq<Section>): (paths: seq<seq<string>>)
    ensures |paths| == |sections|
  {
    seq(|sections|, i requires 0 <= i < |sections| => sections[i].path)
  }

  /** For each heading from the `k`th on, the texts of the headings open right after it. */
  function OpenPaths(headings: seq<Heading>, k: nat): seq<seq<string>>
    requires k <= |headings|
    decreases |headings| - k
  {
    if k == |headings| then [] else [TextsOf(OpenFrom(headings[..k + 1], 0))] + OpenPaths(headings, k + 1)
  }

  /** The open section will be kept: it stands under a heading, or holds or gets a block. */
  predicate Flushes(blocks: seq<Block>, scan: Scan) {
    scan.open.path != [] || scan.open.blocks != [] || (blocks != [] && blocks[0].kind != HeadingKind)
  }

  function OpenPath(blocks: seq<Block>, scan: Scan): seq<seq<string>> {
    if Flushes(blocks, scan) then [scan.open.path] else []
  }

  predicate PathsFit(sections: seq<Section>, first: seq<seq<string>>, all: seq<Heading>, k: nat) {
    k <= |all| && PathsOf(sections) == first + OpenPaths(all, k)
  }

  /** The open section, then one section per heading, under the headings open there. */
  lemma {:induction false} PathsAreOpen(seen: seq<Heading>, blocks: seq<Block>, scan: Scan, all: seq<Heading>)
    requires scan.stack == StackOf(seen) && all == seen + HeadingsOf(blocks)
    ensures PathsFit(Sections(blocks, scan), OpenPath(blocks, scan), all, |seen|)
    decreases |blocks|
  {
    if blocks == [] {
      assert all == seen;
    } else if blocks[0].kind == HeadingKind {
      PathsFromHeading(seen, blocks, scan, all);
    } else {
      var next := scan.(open := scan.open.(blocks := scan.open.blocks + [blocks[0]]));
      PathsAreOpen(seen, blocks[1..], next, all);
      assert OpenPath(blocks[1..], next) == OpenPath(blocks, scan);
    }
  }

  lemma {:induction false} PathsFromHeading(seen: seq<Heading>, blocks: seq<Block>, scan: Scan, all: seq<Heading>)
    requires scan.stack == StackOf(seen) && all == seen + HeadingsOf(blocks)
    requires blocks != [] && blocks[0].kind == HeadingKind
    ensures PathsFit(Sections(blocks, scan), OpenPath(blocks, scan), all, |seen|)
    decreases |blocks|, 0
  {
    var heading := HeadingOf(blocks[0]);
    var stack := PushHeading(scan.stack, heading);
    var next := Scan(stack, Section(TextsOf(stack), [], blocks[0].start));
    StackGrows(seen, heading);
    HeadingsStep(seen, heading, blocks, all);
    PathsAreOpen(seen + [heading], blocks[1..], next, all);
    assert OpenPath(blocks[1..], next) == [TextsOf(stack)];
    PathsAtHeading(seen, heading, blocks, scan, Sections(blocks[1..], next), all);
  }

  lemma {:induction false} HeadingsStep(seen: seq<Heading>, heading: Heading, blocks: seq<Block>, all: seq<Heading>)
    requires blocks != [] && blocks[0].kind == HeadingKind && heading == HeadingOf(blocks[0])
      && all == seen + HeadingsOf(blocks)
    ensures all == seen + [heading] + HeadingsOf(blocks[1..]) && |seen| < |all| && all[..|seen| + 1] == seen + [heading]
  {
    assert HeadingsOf(blocks) == [heading] + HeadingsOf(blocks[1..]);
  }

  lemma {:induction false} PathsAtHeading(seen: seq<Heading>, heading: Heading, blocks: seq<Block>, scan: Scan,
      rest: seq<Section>, all: seq<Heading>)
    requires blocks != [] && blocks[0].kind == HeadingKind
    requires |seen| < |all| && all[..|seen| + 1] == seen + [heading]
    requires PathsFit(rest, [TextsOf(StackOf(seen + [heading]))], all, |seen| + 1)
    ensures PathsFit(Flush(scan.open) + rest, OpenPath(blocks, scan), all, |seen|)
  {
    HeadingPath(seen, heading, all);
    PathsJoin(Flush(scan.open), rest);
    assert PathsOf(Flush(scan.open)) == OpenPath(blocks, scan);
  }

  lemma PathsJoin(a: seq<Section>, b: seq<Section>)
    ensures PathsOf(a + b) == PathsOf(a) + PathsOf(b)
  {}

  lemma {:induction false} HeadingPath(seen: seq<Heading>, heading: Heading, all: seq<Heading>)
    requires |seen| < |all| && all[..|seen| + 1] == seen + [heading]
    ensures OpenPaths(all, |seen|) == [TextsOf(StackOf(seen + [heading]))] + OpenPaths(all, |seen| + 1)
  {
    StackIsOpenHeadings(seen + [heading]);
  }

  lemma {:induction false} StackGrows(seen: seq<Heading>, heading: Heading)
    ensures StackOf(seen + [heading]) == PushHeading(StackOf(seen), heading)
  {
    assert (seen + [heading])[..|seen|] == seen;
  }

  /** A page has one section per heading, in order, under exactly the headings that are still open
      there, after one without a path for what stands before the first heading. */
  lemma {:induction false} SectionPathsAreOpenHeadings(blocks: seq<Block>)
    ensures PathsOf(Sections(blocks, START)) ==
      (if blocks != [] && blocks[0].kind != HeadingKind then [[]] else []) + OpenPaths(HeadingsOf(blocks), 0)
  {
    PathsAreOpen([], blocks, START, HeadingsOf(blocks));
  }

  // ----- chunks -----

  function GroupTexts(group: seq<Block>): seq<string> {
    seq(|group|, i requires 0 <= i < |group| => TextOf(group[i]))
  }

  /** A single block that is not prose keeps its kind. */
  function GroupKind(group: seq<Block>): ChunkKind {
    if |group| == 1 && group[0].kind != ParagraphKind then BlockChunk(group[0].kind) else SectionChunk
  }

  function ChunkOf(section: Section, group: seq<Block>): Chunk {
    Chunk(0, GroupKind(group), section.path, if group != [] then group[0].start else section.line,
          if group != [] then group[|group| - 1].end else section.line, JoinWith(GroupTexts(group), "\n\n"))
  }

  function Groups(patterns: Patterns, prose: Prose, limits: Limits, section: Section): seq<seq<Block>> {
    var groups := Pack(Concat(SplitEach(patterns, prose, section.blocks, limits.maximum, limits.overlap)),
      limits.target, []);
    if groups == [] then [[]] else groups
  }

  function SectionChunks(patterns: Patterns, prose: Prose, limits: Limits, section: Section): seq<Chunk> {
    var groups := Groups(patterns, prose, limits, section);
    seq(|groups|, i requires 0 <= i < |groups| => ChunkOf(section, groups[i]))
  }

  function AllChunks(patterns: Patterns, prose: Prose, limits: Limits, sections: seq<Section>): seq<Chunk> {
    if sections == [] then []
    else SectionChunks(patterns, prose, limits, sections[0]) + AllChunks(patterns, prose, limits, sections[1..])
  }

  // ----- merging small siblings -----

  function Parent(path: seq<string>): seq<string> {
    if path == [] then [] else path[..|path| - 1]
  }

  function Hashes(n: nat): (s: string)
    ensures |s| == n && forall i :: 0 <= i < n ==> s[i] == '#'
  {
    if n == 0 then "" else "#" + Hashes(n - 1)
  }

  function Label(path: seq<string>): (text: string)
    requires path != []
    ensures |text| == |path| + 1 + |path[|path| - 1]|
  {
    Hashes(|path|) + " " + path[|path| - 1]
  }

  predicate Merges(limits: Limits, previous: Chunk, chunk: Chunk) {
    && (|previous.text| < limits.minimum || |chunk.text| < limits.minimum)
    && Parent(previous.path) == Parent(chunk.path) && chunk.path != [] && previous.path != chunk.path
    && |previous.text| + |chunk.text| + 20 <= limits.maximum
  }

  function NonEmpty(parts: seq<string>): seq<string> {
    if parts == [] then [] else (if parts[0] != "" then [parts[0]] else []) + NonEmpty(parts[1..])
  }

  function Absorb(previous: Chunk, chunk: Chunk): Chunk
    requires chunk.path != []
  {
    previous.(text := JoinWith(NonEmpty([previous.text, Label(chunk.path), chunk.text]), "\n\n"), end := chunk.end,
      kind := SectionChunk)
  }

  function MergeStep(limits: Limits, merged: seq<Chunk>, chunk: Chunk): seq<Chunk> {
    if merged != [] && Merges(limits, merged[|merged| - 1], chunk)
    then merged[..|merged| - 1] + [Absorb(merged[|merged| - 1], chunk)] else merged + [chunk]
  }

  function MergeAll(limits: Limits, merged: seq<Chunk>, chunks: seq<Chunk>): seq<Chunk>
    decreases |chunks|
  {
    if chunks == [] then merged else MergeAll(limits, MergeStep(limits, merged, chunks[0]), chunks[1..])
  }

  function Kept(chunks: seq<Chunk>): seq<Chunk> {
    if chunks == [] then []
    else (if chunks[0].text != "" || chunks[0].path != [] then [chunks[0]] else []) + Kept(chunks[1..])
  }

  function Numbered(chunks: seq<Chunk>): (numbered: seq<Chunk>)
    ensures |numbered| == |chunks|
    ensures forall i :: 0 <= i < |chunks| ==> numbered[i] == chunks[i].(ord := i)
  {
    seq(|chunks|, i requires 0 <= i < |chunks| => chunks[i].(ord := i))
  }

  /** `chunk_page` over the tokenised body. */
  function PageChunks(patterns: Patterns, prose: Prose, limits: Limits, title: string, blocks: seq<Block>): seq<Chunk> {
    var chunks := Numbered(Kept(MergeAll(limits, [], AllChunks(patterns, prose, limits, Sections(blocks, START)))));
    if chunks == [] && title != "" then [Chunk(0, TitleChunk, [], 1, 1, "")] else chunks
  }

  // ----- the loops of `chunk_page` -----

  method SectionsLoop(blocks: seq<Block>) returns (sections: seq<Section>)
    ensures sections == Sections(blocks, START)
  {
    sections := [];
    var stack: seq<Heading> := [];
    var path: seq<string> := [];
    var current: seq<Block> := [];
    var line := 1;
    for i := 0 to |blocks|
      invariant sections + Sections(blocks[i..], Scan(stack, Section(path, current, line))) == Sections(blocks, START)
    {
      var block := blocks[i];
      assert blocks[i..][1..] == blocks[i + 1..];
      ghost var before := sections;
      if block.kind == HeadingKind {
        ghost var open := Section(path, current, line);
        if current != [] || path != [] { sections := sections + [Section(path, current, line)]; }
        assert sections == before + Flush(open);
        stack := PopLoop(stack, block.level);
        stack := stack + [HeadingOf(block)];
        path, current, line := TextsOf(stack), [], block.start;
        ghost var rest := Sections(blocks[i + 1..], Scan(stack, Section(path, current, line)));
        assert before + (Flush(open) + rest) == before + Flush(open) + rest;
      } else {
        current := current + [block];
      }
    }
    if current != [] || path != [] { sections := sections + [Section(path, current, line)]; }
  }

  method PopLoop(before: seq<Heading>, level: nat) returns (stack: seq<Heading>)
    ensures stack == Pop(before, level)
  {
    stack := before;
    while stack != [] && stack[|stack| - 1].level >= level
      invariant Pop(stack, level) == Pop(before, level)
    {
      stack := stack[..|stack| - 1];
    }
  }

  /** The chunks of the sections from `i` on, after those already made. */
  function ChunksFrom(chunks: seq<Chunk>, patterns: Patterns, prose: Prose, limits: Limits, sections: seq<Section>,
      i: nat): seq<Chunk>
    requires i <= |sections|
  {
    chunks + AllChunks(patterns, prose, limits, sections[i..])
  }

  method ChunksLoop(patterns: Patterns, prose: Prose, limits: Limits, sections: seq<Section>)
      returns (chunks: seq<Chunk>)
    ensures chunks == AllChunks(patterns, prose, limits, sections)
  {
    chunks := [];
    for i := 0 to |sections|
      invariant ChunksFrom(chunks, patterns, prose, limits, sections, i) == AllChunks(patterns, prose, limits, sections)
    {
      AllChunksUnfold(chunks, patterns, prose, limits, sections, i);
      var more := SectionLoop(patterns, prose, limits, sections[i]);
      chunks := chunks + more;
    }
  }

  lemma AllChunksUnfold(chunks: seq<Chunk>, patterns: Patterns, prose: Prose, limits: Limits,
      sections: seq<Section>, i: nat)
    requires i < |sections|
    ensures ChunksFrom(chunks, patterns, prose, limits, sections, i)
         == ChunksFrom(chunks + SectionChunks(patterns, prose, limits, sections[i]), patterns, prose, limits,
           sections, i + 1)
  {
    assert sections[i..][1..] == sections[i + 1..];
    var first, rest := SectionChunks(patterns, prose, limits, sections[i]),
      AllChunks(patterns, prose, limits, sections[i + 1..]);
    assert chunks + (first + rest) == chunks + first + rest;
  }

  method SectionLoop(patterns: Patterns, prose: Prose, limits: Limits, section: Section) returns (chunks: seq<Chunk>)
    ensures chunks == SectionChunks(patterns, prose, limits, section)
  {
    var groups := PackLoop(patterns, prose, section.blocks, limits.target, limits.maximum, limits.overlap);
    if groups == [] { groups := [[]]; }
    chunks := GroupChunks(section, groups);
  }

  method GroupChunks(section: Section, groups: seq<seq<Block>>) returns (chunks: seq<Chunk>)
    ensures |chunks| == |groups| && forall i :: 0 <= i < |groups| ==> chunks[i] == ChunkOf(section, groups[i])
  {
    chunks := [];
    for i := 0 to |groups|
      invariant |chunks| == i && forall k :: 0 <= k < i ==> chunks[k] == ChunkOf(section, groups[k])
    {
      chunks := chunks + [ChunkOf(section, groups[i])];
    }
  }

  /** The merge pass changes the previous chunk in place. */
  method MergeLoop(limits: Limits, chunks: seq<Chunk>) returns (merged: seq<Chunk>)
    ensures merged == MergeAll(limits, [], chunks)
  {
    merged := [];
    assert chunks[0..] == chunks;
    for i := 0 to |chunks|
      invariant MergeAll(limits, merged, chunks[i..]) == MergeAll(limits, [], chunks)
    {
      MergeUnfold(limits, merged, chunks, i);
      merged := MergeOne(limits, merged, chunks[i]);
    }
  }

  lemma {:induction false} MergeUnfold(limits: Limits, merged: seq<Chunk>, chunks: seq<Chunk>, i: nat)
    requires i < |chunks|
    ensures MergeAll(limits, merged, chunks[i..])
      == MergeAll(limits, MergeStep(limits, merged, chunks[i]), chunks[i + 1..])
  {
    assert chunks[i..][1..] == chunks[i + 1..];
  }

  method MergeOne(limits: Limits, before: seq<Chunk>, chunk: Chunk) returns (merged: seq<Chunk>)
    ensures merged == MergeStep(limits, before, chunk)
  {
    if before != [] && Merges(limits, before[|before| - 1], chunk) {
      var previous := before[|before| - 1];
      merged := before[|before| - 1 := Absorb(previous, chunk)];
    } else {
      merged := before + [chunk];
    }
  }

  method ChunkPageLoop(expand: Expand, patterns: Patterns, prose: Prose, limits: Limits, title: string,
      lines: seq<Line>)
    returns (chunks: seq<Chunk>)
    ensures chunks == PageChunks(patterns, prose, limits, title, Tokenize(expand, lines, 0))
  {
    var blocks := TokenizeLoop(expand, lines);
    var sections := SectionsLoop(blocks);
    var all := ChunksLoop(patterns, prose, limits, sections);
    var merged := MergeLoop(limits, all);
    chunks := Numbered(Kept(merged));
    if chunks == [] && title != "" { chunks := [Chunk(0, TitleChunk, [], 1, 1, "")]; }
  }
}
