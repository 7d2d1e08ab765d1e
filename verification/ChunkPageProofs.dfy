/** What `chunk_page` keeps: every group's text, its order, its siblings, and the size bound. */
module ChunkPageProofs {
  import opened Common
  import opened PythonText
  import opened ChunkLines
  import opened ChunkSplit
  import opened ChunkPage

  // ----- runs of merged chunks -----

  /** The chunk that results from merging a run, first to last. */
  function Rendered(run: seq<Chunk>): Chunk
    requires run != [] && forall i :: 0 < i < |run| ==> run[i].path != []
    decreases |run|
  {
    if |run| == 1 then run[0] else Absorb(Rendered(run[..|run| - 1]), run[|run| - 1])
  }

  /** Headings side by side under the same headings. */
  predicate Siblings(a: seq<string>, b: seq<string>) {
    if a == [] then |b| == 1 else |a| == |b| && forall i :: 0 <= i < |a| - 1 ==> a[i] == b[i]
  }

  /** Why two neighbours stay apart: neither is small, they do not stand under different headings side by
      side, or both texts and a label would be too long. */
  predicate Separate(limits: Limits, a: Chunk, b: Chunk) {
    || (|a.text| >= limits.minimum && |b.text| >= limits.minimum)
    || b.path == [] || a.path == b.path || !Siblings(a.path, b.path)
    || |a.text| + |b.text| + 20 > limits.maximum
  }

  lemma SiblingsShareParent(a: seq<string>, b: seq<string>)
    requires b != []
    ensures Siblings(a, b) <==> Parent(a) == Parent(b)
  {
    if a != [] && Parent(a) == Parent(b) {
      forall i | 0 <= i < |a| - 1 ensures a[i] == b[i] {
        assert Parent(a)[i] == a[i] && Parent(b)[i] == b[i];
      }
    }
    if Siblings(a, b) { assert Parent(a) == Parent(b); }
  }

  lemma MergesUnlessSeparate(limits: Limits, a: Chunk, b: Chunk)
    ensures Merges(limits, a, b) <==> !Separate(limits, a, b)
  {
    if b.path != [] { SiblingsShareParent(a.path, b.path); }
  }

  /** A run the merge pass may have produced. */
  predicate IsRun(limits: Limits, run: seq<Chunk>)
    decreases |run|
  {
    run != [] && (forall i :: 0 < i < |run| ==> run[i].path != []) &&
    (|run| > 1 ==> IsRun(limits, run[..|run| - 1]) && !Separate(limits, Rendered(run[..|run| - 1]), run[|run| - 1]))
  }

  /** `merged` is the rendering of `runs`, one chunk per run, and no run could have gone on. */
  ghost predicate Renders(limits: Limits, runs: seq<seq<Chunk>>, merged: seq<Chunk>) {
    && |runs| == |merged|
    && (forall i :: 0 <= i < |runs| ==> IsRun(limits, runs[i]) && Rendered(runs[i]) == merged[i])
    && forall i :: 0 < i < |runs| ==> Ended(limits, runs, merged, i)
  }

  predicate Ended(limits: Limits, runs: seq<seq<Chunk>>, merged: seq<Chunk>, i: nat) {
    0 < i < |runs| == |merged| && runs[i] != [] && Separate(limits, merged[i - 1], runs[i][0])
  }

  lemma {:induction false} OneRun(limits: Limits, chunk: Chunk)
    ensures IsRun(limits, [chunk]) && Rendered([chunk]) == chunk
  {}

  lemma {:induction false} GrownRun(limits: Limits, run: seq<Chunk>, chunk: Chunk)
    requires IsRun(limits, run) && Merges(limits, Rendered(run), chunk)
    ensures IsRun(limits, run + [chunk]) && Rendered(run + [chunk]) == Absorb(Rendered(run), chunk)
  {
    assert (run + [chunk])[..|run|] == run;
    MergesUnlessSeparate(limits, Rendered(run), chunk);
  }

  lemma {:induction false} RendersAppend(limits: Limits, runs: seq<seq<Chunk>>, merged: seq<Chunk>, run: seq<Chunk>,
      chunk: Chunk)
    requires Renders(limits, runs, merged) && IsRun(limits, run) && Rendered(run) == chunk
    requires runs != [] ==> Separate(limits, merged[|merged| - 1], run[0])
    ensures Renders(limits, runs + [run], merged + [chunk])
    ensures Concat(runs + [run]) == Concat(runs) + run
  {
    ConcatSplit(runs, [run]);
    ConcatOne(run);
    var all, out := runs + [run], merged + [chunk];
    forall i | 0 < i < |all| ensures Ended(limits, all, out, i) {
      if i < |runs| { assert Ended(limits, runs, merged, i); }
    }
  }

  lemma RendersFront(limits: Limits, runs: seq<seq<Chunk>>, merged: seq<Chunk>)
    requires Renders(limits, runs, merged) && runs != []
    ensures Renders(limits, runs[..|runs| - 1], merged[..|merged| - 1])
    ensures |runs| > 1 ==> Separate(limits, merged[|runs| - 2], runs[|runs| - 1][0])
  {
    var front, out := runs[..|runs| - 1], merged[..|merged| - 1];
    forall i | 0 < i < |front| ensures Ended(limits, front, out, i) {
      assert Ended(limits, runs, merged, i);
    }
    assert |runs| > 1 ==> Ended(limits, runs, merged, |runs| - 1);
  }

  lemma {:induction false} ConcatLast(runs: seq<seq<Chunk>>, front: seq<seq<Chunk>>, last: seq<Chunk>)
    requires runs == front + [last]
    ensures Concat(runs) == Concat(front) + last
  {
    ConcatSplit(front, [last]);
    ConcatOne(last);
  }

  lemma ExtendRun(limits: Limits, runs: seq<seq<Chunk>>, merged: seq<Chunk>, chunk: Chunk)
      returns (next: seq<seq<Chunk>>)
    requires Renders(limits, runs, merged)
    ensures Renders(limits, next, MergeStep(limits, merged, chunk)) && Concat(next) == Concat(runs) + [chunk]
  {
    if merged != [] && Merges(limits, merged[|merged| - 1], chunk) {
      var front, last := runs[..|runs| - 1], runs[|runs| - 1];
      RendersFront(limits, runs, merged);
      assert runs == front + [last];
      ConcatLast(runs, front, last);
      GrownRun(limits, last, chunk);
      next := front + [last + [chunk]];
      RendersAppend(limits, front, merged[..|merged| - 1], last + [chunk], Absorb(merged[|merged| - 1], chunk));
      assert Concat(front) + (last + [chunk]) == Concat(front) + last + [chunk];
    } else {
      if merged != [] { MergesUnlessSeparate(limits, merged[|merged| - 1], chunk); }
      OneRun(limits, chunk);
      next := runs + [[chunk]];
      RendersAppend(limits, runs, merged, [chunk], chunk);
    }
  }

  /** The merge pass partitions the chunks, in order, into runs and renders each. */
  lemma {:induction false} MergePartitions(limits: Limits, runs: seq<seq<Chunk>>, merged: seq<Chunk>,
      chunks: seq<Chunk>)
    returns (all: seq<seq<Chunk>>)
    requires Renders(limits, runs, merged)
    ensures Renders(limits, all, MergeAll(limits, merged, chunks)) && Concat(all) == Concat(runs) + chunks
    decreases |chunks|
  {
    if chunks == [] {
      all := runs;
      assert Concat(runs) + chunks == Concat(runs);
    } else {
      var next := ExtendRun(limits, runs, merged, chunks[0]);
      var step := MergeStep(limits, merged, chunks[0]);
      all := MergePartitions(limits, next, step, chunks[1..]);
      ShiftChunks(Concat(runs), chunks);
      assert MergeAll(limits, merged, chunks) == MergeAll(limits, step, chunks[1..]);
    }
  }

  lemma ShiftChunks(front: seq<Chunk>, chunks: seq<Chunk>)
    requires chunks != []
    ensures front + [chunks[0]] + chunks[1..] == front + chunks
  {}

  // ----- what a rendered run holds -----

  ghost predicate Inside(part: string, whole: string) {
    exists a, b :: whole == a + part + b
  }

  lemma InsideTrans(part: string, middle: string, whole: string)
    requires Inside(part, middle) && Inside(middle, whole)
    ensures Inside(part, whole)
  {
    var a, b :| middle == a + part + b;
    var c, d :| whole == c + middle + d;
    assert whole == (c + a) + part + (b + d);
  }

  lemma JoinNonEmpty(previous: string, marker: string, text: string)
    requires marker != ""
    ensures JoinWith(NonEmpty([previous, marker, text]), "\n\n")
         == (if previous == "" then "" else previous + "\n\n") + marker + (if text == "" then "" else "\n\n" + text)
  {
    assert [previous, marker, text][1..] == [marker, text] && [marker, text][1..] == [text] && [text][1..] == [];
    var tail := if text == "" then [] else [text];
    assert NonEmpty([text]) == tail;
    assert NonEmpty([marker, text]) == [marker] + tail;
    assert ([marker] + tail)[1..] == tail;
    assert JoinWith([marker] + tail, "\n\n") == marker + (if text == "" then "" else "\n\n" + text);
    if previous != "" {
      assert NonEmpty([previous, marker, text]) == [previous] + ([marker] + tail);
      assert ([previous] + ([marker] + tail))[1..] == [marker] + tail;
    }
  }

  lemma AbsorbedText(previous: Chunk, chunk: Chunk, front: string, back: string)
    requires chunk.path != []
    requires front == if previous.text == "" then "" else previous.text + "\n\n"
    requires back == if chunk.text == "" then "" else "\n\n" + chunk.text
    ensures Absorb(previous, chunk).text == front + Label(chunk.path) + back
  {
    JoinNonEmpty(previous.text, Label(chunk.path), chunk.text);
  }

  lemma InsideParts(a: string, b: string, c: string, whole: string)
    requires whole == a + b + c
    ensures Inside(a, whole) && Inside(b, whole) && Inside(c, whole)
  {
    assert whole == "" + a + (b + c);
    assert whole == (a + b) + c + "";
  }

  /** Absorbing keeps both texts whole and puts the label between them. */
  lemma AbsorbKeeps(previous: Chunk, chunk: Chunk)
    requires chunk.path != []
    ensures var merged := Absorb(previous, chunk);
      && merged.text == (if previous.text == "" then "" else previous.text + "\n\n") + Label(chunk.path)
           + (if chunk.text == "" then "" else "\n\n" + chunk.text)
      && Inside(previous.text, merged.text) && Inside(chunk.text, merged.text) && Inside(Label(chunk.path), merged.text)
      && |merged.text| == |previous.text| + (if previous.text == "" then 0 else 2) + |Label(chunk.path)|
           + (if chunk.text == "" then 0 else 2 + |chunk.text|)
      && merged.path == previous.path && merged.start == previous.start && merged.end == chunk.end
      && merged.kind == SectionChunk
  {
    var merged, marker := Absorb(previous, chunk), Label(chunk.path);
    var gap, pause := if previous.text == "" then "" else "\n\n", if chunk.text == "" then "" else "\n\n";
    AbsorbedText(previous, chunk, previous.text + gap, pause + chunk.text);
    InsideParts(previous.text + gap, marker, pause + chunk.text, merged.text);
    InsideParts(previous.text, gap, "", previous.text + gap);
    InsideParts("", pause, chunk.text, pause + chunk.text);
    InsideTrans(previous.text, previous.text + gap, merged.text);
    InsideTrans(chunk.text, pause + chunk.text, merged.text);
  }

  /** What a rendered run holds: every text, and the label of every chunk but the first, whose path
      it keeps. */
  ghost predicate HoldsRun(run: seq<Chunk>, whole: Chunk)
    requires run != []
  {
    && (forall k :: 0 <= k < |run| ==> Inside(run[k].text, whole.text))
    && (forall k :: 0 < k < |run| ==> LabelInside(run[k], whole))
    && (forall k :: 0 <= k < |run| ==> Parent(run[k].path) == Parent(run[0].path))
    && whole.path == run[0].path && whole.start == run[0].start && whole.end == run[|run| - 1].end
    && (if |run| == 1 then whole == run[0] else whole.kind == SectionChunk)
    && whole.text == JoinWith(NonEmpty(RunTexts(run)), "\n\n")
  }

  ghost predicate LabelInside(chunk: Chunk, whole: Chunk) {
    chunk.path != [] && Inside(Label(chunk.path), whole.text)
  }

  /** The texts of a run in order, with the label of each chunk but the first before its text. */
  function RunTexts(run: seq<Chunk>): seq<string>
    decreases |run|
  {
    if |run| <= 1 then (if run == [] then [] else [run[0].text])
    else
      var last := run[|run| - 1];
      RunTexts(run[..|run| - 1]) + [if last.path == [] then "" else Label(last.path), last.text]
  }

  lemma {:induction false} NonEmptySplit(a: seq<string>, b: seq<string>)
    ensures NonEmpty(a + b) == NonEmpty(a) + NonEmpty(b)
    decreases |a|
  {
    if a == [] {
      assert a + b == b;
    } else {
      assert (a + b)[1..] == a[1..] + b;
      NonEmptySplit(a[1..], b);
    }
  }

  lemma {:induction false} NonEmptyHolds(parts: seq<string>)
    ensures forall i :: 0 <= i < |NonEmpty(parts)| ==> NonEmpty(parts)[i] != ""
    decreases |parts|
  {
    if parts != [] { NonEmptyHolds(parts[1..]); }
  }

  lemma {:induction false} JoinTwo(a: seq<string>, b: seq<string>, separator: string)
    requires a != [] && b != []
    ensures JoinWith(a + b, separator) == JoinWith(a, separator) + separator + JoinWith(b, separator)
    decreases |a|
  {
    assert (a + b)[1..] == a[1..] + b;
    if |a| > 1 {
      JoinTwo(a[1..], b, separator);
      var first, rest, more := a[0] + separator, JoinWith(a[1..], separator), JoinWith(b, separator);
      assert first + (rest + separator + more) == first + rest + separator + more;
    } else {
      assert a[1..] == [];
    }
  }

  lemma {:induction false} NothingJoined(parts: seq<string>)
    requires forall i :: 0 <= i < |parts| ==> parts[i] != ""
    ensures JoinWith(parts, "\n\n") == "" <==> parts == []
  {
    if parts != [] { assert |JoinWith(parts, "\n\n")| >= |parts[0]|; }
  }

  /** Joining a run's texts and then a marker and a text is joining all of them. */
  lemma {:induction false} JoinGrows(texts: seq<string>, marker: string, text: string)
    requires marker != ""
    ensures JoinWith(NonEmpty([JoinWith(NonEmpty(texts), "\n\n"), marker, text]), "\n\n")
         == JoinWith(NonEmpty(texts + [marker, text]), "\n\n")
  {
    var whole := JoinWith(NonEmpty(texts), "\n\n");
    var more := NonEmpty([marker, text]);
    assert more[0] == marker;
    NonEmptySplit(texts, [marker, text]);
    NonEmptySplit([whole], [marker, text]);
    assert [whole] + [marker, text] == [whole, marker, text];
    NonEmptyHolds(texts);
    NothingJoined(NonEmpty(texts));
    if whole == "" {
      assert NonEmpty([whole]) == [] && [] + more == more;
    } else {
      assert NonEmpty([whole]) == [whole];
      JoinTwo(NonEmpty(texts), more, "\n\n");
      JoinTwo([whole], more, "\n\n");
    }
  }

  lemma GrownHolds(front: seq<Chunk>, last: Chunk, whole: Chunk)
    requires front != [] && last.path != [] && HoldsRun(front, whole) && Parent(last.path) == Parent(whole.path)
    ensures HoldsRun(front + [last], Absorb(whole, last))
  {
    AbsorbKeeps(whole, last);
    var run, grown := front + [last], Absorb(whole, last);
    assert run[..|front|] == front;
    JoinGrows(RunTexts(front), Label(last.path), last.text);
    forall k | 0 <= k < |run|
      ensures Inside(run[k].text, grown.text) && Parent(run[k].path) == Parent(run[0].path)
    {
      if k < |front| {
        assert run[k] == front[k];
        InsideTrans(front[k].text, whole.text, grown.text);
      }
    }
    forall k | 0 < k < |run| ensures LabelInside(run[k], grown) {
      if k < |front| {
        assert run[k] == front[k] && LabelInside(front[k], whole);
        InsideTrans(Label(front[k].path), whole.text, grown.text);
      }
    }
  }

  /** Every chunk of a run is a contiguous part of the rendered text, and so is the label of all but
      the first; all its chunks are siblings. */
  lemma {:induction false} RunHolds(limits: Limits, run: seq<Chunk>)
    requires IsRun(limits, run)
    ensures HoldsRun(run, Rendered(run))
    decreases |run|
  {
    if |run| == 1 {
      assert run[0].text == "" + run[0].text + "";
    } else {
      var front, last := run[..|run| - 1], run[|run| - 1];
      RunHolds(limits, front);
      MergesUnlessSeparate(limits, Rendered(front), last);
      GrownHolds(front, last, Rendered(front));
      assert run == front + [last];
    }
  }

  /** A merged text exceeds the maximum by at most what its last label takes beyond the sixteen
      characters reserved for it. */
  lemma MergedSize(limits: Limits, run: seq<Chunk>)
    requires IsRun(limits, run) && |run| > 1
    ensures |Rendered(run).text| + 16 <= limits.maximum + |Label(run[|run| - 1].path)|
    ensures |Label(run[|run| - 1].path)| <= 16 ==> |Rendered(run).text| <= limits.maximum
  {
    MergesUnlessSeparate(limits, Rendered(run[..|run| - 1]), run[|run| - 1]);
    AbsorbKeeps(Rendered(run[..|run| - 1]), run[|run| - 1]);
  }

  /** How much longer than both texts and the sixteen characters reserved for it a label may be:
      what the texts leave free, and a blank line less for each text that is empty. */
  function RoomLeft(limits: Limits, previous: Chunk, chunk: Chunk): int {
    limits.maximum - |previous.text| - |chunk.text| - 20
      + (if previous.text == "" then 2 else 0) + (if chunk.text == "" then 2 else 0)
  }

  /** When a merge exceeds the maximum: exactly when its label is longer than sixteen characters
      and the room that is left. */
  lemma LongLabelGoesOver(limits: Limits, previous: Chunk, chunk: Chunk)
    requires Merges(limits, previous, chunk)
    ensures |Absorb(previous, chunk).text| > limits.maximum <==>
      |Label(chunk.path)| > 16 + RoomLeft(limits, previous, chunk)
    ensures RoomLeft(limits, previous, chunk) >= 0
  {
    AbsorbKeeps(previous, chunk);
  }

  // ----- the page -----

  predicate StartsInOrder(chunks: seq<Chunk>) {
    forall i, j :: 0 <= i < j < |chunks| ==> chunks[i].start <= chunks[j].start
  }

  /** Merging keeps the first chunk of each run, so starts stay in order. */
  lemma {:induction false} MergeKeepsOrder(limits: Limits, merged: seq<Chunk>, chunks: seq<Chunk>)
    requires StartsInOrder(merged) && StartsInOrder(chunks)
    requires forall i, j :: 0 <= i < |merged| && 0 <= j < |chunks| ==> merged[i].start <= chunks[j].start
    ensures StartsInOrder(MergeAll(limits, merged, chunks))
    decreases |chunks|
  {
    if chunks != [] {
      var next := MergeStep(limits, merged, chunks[0]);
      assert forall i :: 0 <= i < |next| ==>
        next[i].start == (if i < |merged| then merged[i].start else chunks[0].start);
      MergeKeepsOrder(limits, next, chunks[1..]);
    }
  }

  lemma {:induction false} KeptAreChunks(chunks: seq<Chunk>)
    ensures forall k :: 0 <= k < |Kept(chunks)| ==> Kept(chunks)[k] in chunks
  {
    forall k | 0 <= k < |Kept(chunks)| ensures Kept(chunks)[k] in chunks {
      KeptExactly(chunks, Kept(chunks)[k]);
    }
  }

  lemma FirstStarts(chunks: seq<Chunk>, later: seq<Chunk>)
    requires StartsInOrder(chunks) && chunks != [] && forall k :: 0 <= k < |later| ==> later[k] in chunks
    ensures forall k :: 0 <= k < |later| ==> chunks[0].start <= later[k].start
  {
    forall k | 0 <= k < |later| ensures chunks[0].start <= later[k].start {
      var i :| 0 <= i < |chunks| && chunks[i] == later[k];
    }
  }

  lemma {:induction false} KeptKeepsOrder(chunks: seq<Chunk>)
    requires StartsInOrder(chunks)
    ensures StartsInOrder(Kept(chunks))
    decreases |chunks|
  {
    if chunks != [] {
      var rest := Kept(chunks[1..]);
      KeptKeepsOrder(chunks[1..]);
      KeptAreChunks(chunks[1..]);
      FirstStarts(chunks, rest);
      assert StartsInOrder([chunks[0]] + rest);
    }
  }

  /** Only a chunk without text and heading is dropped at the end. */
  lemma {:induction false} KeptExactly(chunks: seq<Chunk>, chunk: Chunk)
    ensures chunk in Kept(chunks) <==> chunk in chunks && Shows(chunk)
    decreases |chunks|
  {
    if chunks != [] { KeptExactly(chunks[1..], chunk); }
  }

  // ----- starts in order -----

  predicate InOrder(blocks: seq<Block>) {
    forall i, j :: 0 <= i < j < |blocks| ==> blocks[i].start <= blocks[j].start
  }

  predicate Within(blocks: seq<Block>, low: nat, high: nat) {
    forall i :: 0 <= i < |blocks| ==> low <= blocks[i].start <= high
  }

  lemma SplitKeepsStart(patterns: Patterns, prose: Prose, block: Block, maximum: nat, overlap: nat)
    ensures forall p :: 0 <= p < |SplitBlock(patterns, prose, block, maximum, overlap)| ==>
      SplitBlock(patterns, prose, block, maximum, overlap)[p].start == block.start
  {}

  lemma {:induction false} PartsInOrder(patterns: Patterns, prose: Prose, blocks: seq<Block>, maximum: nat,
      overlap: nat, low: nat, high: nat)
    requires InOrder(blocks) && Within(blocks, low, high)
    ensures var parts := Concat(SplitEach(patterns, prose, blocks, maximum, overlap));
      InOrder(parts) && Within(parts, low, high)
    decreases |blocks|
  {
    if blocks != [] {
      SplitEachFirst(patterns, prose, blocks, maximum, overlap);
      SplitKeepsStart(patterns, prose, blocks[0], maximum, overlap);
      PartsInOrder(patterns, prose, blocks[1..], maximum, overlap, blocks[0].start, high);
      JoinInOrder(SplitBlock(patterns, prose, blocks[0], maximum, overlap),
                  Concat(SplitEach(patterns, prose, blocks[1..], maximum, overlap)), low, blocks[0].start, high);
    }
  }

  lemma JoinInOrder(a: seq<Block>, b: seq<Block>, low: nat, middle: nat, high: nat)
    requires low <= middle <= high && (forall i :: 0 <= i < |a| ==> a[i].start == middle)
    requires InOrder(b) && Within(b, middle, high)
    ensures InOrder(a + b) && Within(a + b, low, high)
  {}

  /** The first parts of the groups of an ordered sequence of parts are in order. */
  lemma {:induction false} GroupsInOrder(groups: seq<seq<Block>>, low: nat, high: nat)
    requires InOrder(Concat(groups)) && Within(Concat(groups), low, high)
    requires forall k :: 0 <= k < |groups| ==> groups[k] != []
    ensures forall k :: 0 <= k < |groups| ==> low <= groups[k][0].start <= high
    ensures forall j, k :: 0 <= j < k < |groups| ==> groups[j][0].start <= groups[k][0].start
    decreases |groups|
  {
    if groups != [] {
      var parts, rest := Concat(groups), Concat(groups[1..]);
      assert parts[0] == groups[0][0];
      forall i | 0 <= i < |rest| ensures rest[i] == parts[|groups[0]| + i] {}
      assert forall i :: 0 <= i < |rest| ==> groups[0][0].start <= rest[i].start <= high;
      GroupsInOrder(groups[1..], groups[0][0].start, high);
    }
  }

  predicate ChunksWithin(chunks: seq<Chunk>, low: nat, high: nat) {
    StartsInOrder(chunks) && forall i :: 0 <= i < |chunks| ==> low <= chunks[i].start <= high
  }

  lemma SectionInOrder(patterns: Patterns, prose: Prose, limits: Limits, section: Section, high: nat)
    requires section.line <= high && InOrder(section.blocks) && Within(section.blocks, section.line, high)
    ensures ChunksWithin(SectionChunks(patterns, prose, limits, section), section.line, high)
  {
    var parts := Concat(SplitEach(patterns, prose, section.blocks, limits.maximum, limits.overlap));
    PartsInOrder(patterns, prose, section.blocks, limits.maximum, limits.overlap, section.line, high);
    PackConserves(parts, limits.target);
    var groups := Pack(parts, limits.target, []);
    forall k | 0 <= k < |groups| ensures groups[k] != [] { assert GroupFits(groups[k], limits.target); }
    GroupsInOrder(groups, section.line, high);
  }

  /** Sections in page order: each one's lines end before the next heading. */
  predicate SectionsWithin(sections: seq<Section>, low: nat, high: nat)
    decreases |sections|
  {
    sections == [] ||
    (&& low <= sections[0].line && InOrder(sections[0].blocks)
     && (|sections| > 1 ==>
           sections[0].line <= sections[1].line <= high &&
           Within(sections[0].blocks, sections[0].line, sections[1].line))
     && (|sections| == 1 ==> sections[0].line <= high && Within(sections[0].blocks, sections[0].line, high))
     && SectionsWithin(sections[1..], sections[0].line, high))
  }

  lemma {:induction false} AllInOrder(patterns: Patterns, prose: Prose, limits: Limits, sections: seq<Section>,
      low: nat, high: nat)
    requires SectionsWithin(sections, low, high)
    ensures var from := if sections == [] then low else sections[0].line;
      ChunksWithin(AllChunks(patterns, prose, limits, sections), from, high)
    decreases |sections|
  {
    if sections != [] {
      var upto := if |sections| > 1 then sections[1].line else high;
      SectionInOrder(patterns, prose, limits, sections[0], upto);
      AllInOrder(patterns, prose, limits, sections[1..], sections[0].line, high);
    }
  }

  lemma {:induction false} SectionsInOrder(blocks: seq<Block>, scan: Scan, low: nat, high: nat)
    requires low <= scan.open.line <= high
    requires InOrder(scan.open.blocks + blocks) && Within(scan.open.blocks + blocks, scan.open.line, high)
    ensures SectionsWithin(Sections(blocks, scan), low, high)
    ensures Sections(blocks, scan) != [] ==> Sections(blocks, scan)[0].line >= scan.open.line
    decreases |blocks|
  {
    var held := scan.open.blocks;
    if blocks == [] {
      assert held + blocks == held;
    } else {
      assert (held + blocks)[|held|] == blocks[0];
      if blocks[0].kind == HeadingKind {
        var stack := PushHeading(scan.stack, HeadingOf(blocks[0]));
        var next := Scan(stack, Section(TextsOf(stack), [], blocks[0].start));
        NextSection(held, blocks, scan.open.line, high);
        SectionsInOrder(blocks[1..], next, scan.open.line, high);
        FlushBefore(scan.open, Sections(blocks[1..], next), low, blocks[0].start, high);
      } else {
        assert held + [blocks[0]] + blocks[1..] == held + blocks;
        SectionsInOrder(blocks[1..], scan.(open := scan.open.(blocks := held + [blocks[0]])), low, high);
      }
    }
  }

  lemma NextSection(held: seq<Block>, blocks: seq<Block>, line: nat, high: nat)
    requires blocks != [] && InOrder(held + blocks) && Within(held + blocks, line, high)
    ensures InOrder(held) && Within(held, line, blocks[0].start) && line <= blocks[0].start <= high
    ensures InOrder([] + blocks[1..]) && Within([] + blocks[1..], blocks[0].start, high)
  {
    var all := held + blocks;
    forall i | 0 <= i < |held| ensures held[i] == all[i] {}
    forall i | 0 <= i < |blocks| ensures blocks[i] == all[|held| + i] {}
  }

  lemma {:induction false} FlushBefore(open: Section, rest: seq<Section>, low: nat, middle: nat, high: nat)
    requires low <= open.line <= middle <= high && InOrder(open.blocks) && Within(open.blocks, open.line, middle)
    requires SectionsWithin(rest, open.line, high) && (rest != [] ==> rest[0].line >= middle)
    ensures SectionsWithin(Flush(open) + rest, low, high)
  {
    if Flush(open) == [] {
      assert Flush(open) + rest == rest;
      if rest != [] { SectionsLower(rest, open.line, low, high); }
    } else {
      assert (Flush(open) + rest)[1..] == rest;
      if rest != [] { FirstLine(rest, open.line, high); }
    }
  }

  lemma {:induction false} FirstLine(sections: seq<Section>, low: nat, high: nat)
    requires SectionsWithin(sections, low, high) && sections != []
    ensures low <= sections[0].line <= high
  {}

  lemma {:induction false} SectionsLower(sections: seq<Section>, from: nat, low: nat, high: nat)
    requires SectionsWithin(sections, from, high) && sections != [] && low <= from
    ensures SectionsWithin(sections, low, high)
  {}

  lemma {:induction false} ChunksInOrder(
    patterns: Patterns, prose: Prose, limits: Limits, blocks: seq<Block>, high: nat)
    requires InOrder(blocks) && Within(blocks, 1, high) && high >= 1
    ensures StartsInOrder(AllChunks(patterns, prose, limits, Sections(blocks, START)))
  {
    assert [] + blocks == blocks;
    SectionsInOrder(blocks, START, 1, high);
    AllInOrder(patterns, prose, limits, Sections(blocks, START), 1, high);
  }

  lemma BlocksInOrder(patterns: Patterns, prose: Prose, limits: Limits, title: string, blocks: seq<Block>, high: nat)
    requires InOrder(blocks) && Within(blocks, 1, high) && high >= 1
    ensures StartsInOrder(PageChunks(patterns, prose, limits, title, blocks))
  {
    ChunksInOrder(patterns, prose, limits, blocks, high);
    FinalInOrder(limits, AllChunks(patterns, prose, limits, Sections(blocks, START)));
  }

  lemma {:induction false} FinalInOrder(limits: Limits, chunks: seq<Chunk>)
    requires StartsInOrder(chunks)
    ensures StartsInOrder(Numbered(Kept(MergeAll(limits, [], chunks))))
  {
    MergeKeepsOrder(limits, [], chunks);
    KeptKeepsOrder(MergeAll(limits, [], chunks));
  }

  lemma OrderedIsInOrder(blocks: seq<Block>, n: nat)
    requires Ordered(blocks, 0, n)
    ensures InOrder(blocks) && Within(blocks, 1, n + 1)
  {
    forall i, j | 0 <= i < j < |blocks|
      ensures blocks[i].start <= blocks[j].start
    {
      assert Before(blocks[i], blocks[j]) || SameRange(blocks[i], blocks[j]);
    }
  }

  /** The chunks of a page come in page order: starts never go back. */
  lemma {:induction false} PageInOrder(expand: Expand, patterns: Patterns, prose: Prose, limits: Limits,
      title: string, lines: seq<Line>)
    ensures StartsInOrder(PageChunks(patterns, prose, limits, title, Tokenize(expand, lines, 0)))
  {
    TokenizeOrdered(expand, lines, 0);
    OrderedIsInOrder(Tokenize(expand, lines, 0), |lines|);
    BlocksInOrder(patterns, prose, limits, title, Tokenize(expand, lines, 0), |lines| + 1);
  }

  /** Each chunk of a run is kept whole in the chunk it was merged into, under the same parent. */
  ghost predicate RunsHeld(runs: seq<seq<Chunk>>, merged: seq<Chunk>) {
    |runs| == |merged| && forall r :: 0 <= r < |runs| ==> runs[r] != [] && HoldsRun(runs[r], merged[r])
  }

  lemma RenderedRunsHold(limits: Limits, runs: seq<seq<Chunk>>, merged: seq<Chunk>)
    requires Renders(limits, runs, merged)
    ensures RunsHeld(runs, merged)
  {
    forall r | 0 <= r < |runs| ensures runs[r] != [] && HoldsRun(runs[r], merged[r]) {
      RunHolds(limits, runs[r]);
    }
  }

  predicate Shows(chunk: Chunk) {
    chunk.text != "" || chunk.path != []
  }

  predicate Picked(chunks: seq<Chunk>, kept: seq<Chunk>, at: seq<nat>) {
    && |at| == |kept| && (forall i :: 0 <= i < |at| ==> at[i] < |chunks| && kept[i] == chunks[at[i]])
    && (forall i, j :: 0 <= i < j < |at| ==> at[i] < at[j])
  }

  predicate AllShown(chunks: seq<Chunk>, at: seq<nat>) {
    forall r :: 0 <= r < |chunks| ==> (r in at <==> Shows(chunks[r]))
  }

  /** The chunks at `at` are those kept: in order, each once, and all that have a text or a heading. */
  predicate KeptAt(chunks: seq<Chunk>, kept: seq<Chunk>, at: seq<nat>) {
    Picked(chunks, kept, at) && AllShown(chunks, at)
  }

  lemma {:induction false} KeptInPlace(chunks: seq<Chunk>) returns (at: seq<nat>)
    ensures KeptAt(chunks, Kept(chunks), at)
    decreases |chunks|
  {
    if chunks == [] {
      at := [];
    } else {
      var rest := KeptInPlace(chunks[1..]);
      at := KeptShifted(chunks, Kept(chunks[1..]), rest);
    }
  }

  lemma {:induction false} KeptShifted(chunks: seq<Chunk>, kept: seq<Chunk>, rest: seq<nat>) returns (at: seq<nat>)
    requires chunks != [] && KeptAt(chunks[1..], kept, rest)
    ensures KeptAt(chunks, (if Shows(chunks[0]) then [chunks[0]] else []) + kept, at)
  {
    var front := if Shows(chunks[0]) then [0] else [];
    var first := if Shows(chunks[0]) then [chunks[0]] else [];
    at := front + Later(rest);
    PickedLater(chunks, kept, rest);
    PickedJoin(chunks, first, front, kept, Later(rest));
    AllLater(chunks, rest);
    LaterHolds(rest);
  }

  lemma PickedLater(chunks: seq<Chunk>, kept: seq<Chunk>, rest: seq<nat>)
    requires chunks != [] && Picked(chunks[1..], kept, rest)
    ensures Picked(chunks, kept, Later(rest)) && forall i :: 0 <= i < |rest| ==> Later(rest)[i] > 0
  {
    forall i | 0 <= i < |rest| ensures Later(rest)[i] < |chunks| && kept[i] == chunks[Later(rest)[i]] {
      assert rest[i] < |chunks[1..]|;
    }
  }

  lemma PickedJoin(chunks: seq<Chunk>, a: seq<Chunk>, atA: seq<nat>, b: seq<Chunk>, atB: seq<nat>)
    requires Picked(chunks, a, atA) && Picked(chunks, b, atB) && |atA| <= 1
    requires forall i, j :: 0 <= i < |atA| && 0 <= j < |atB| ==> atA[i] < atB[j]
    ensures Picked(chunks, a + b, atA + atB)
  {}

  lemma AllLater(chunks: seq<Chunk>, rest: seq<nat>)
    requires chunks != [] && AllShown(chunks[1..], rest)
    ensures AllShown(chunks, (if Shows(chunks[0]) then [0] else []) + Later(rest))
  {
    LaterHolds(rest);
    var at := (if Shows(chunks[0]) then [0] else []) + Later(rest);
    forall r | 0 <= r < |chunks| ensures r in at <==> Shows(chunks[r]) {
      if r > 0 { assert chunks[r] == chunks[1..][r - 1]; }
    }
  }

  function Later(at: seq<nat>): seq<nat> {
    seq(|at|, i requires 0 <= i < |at| => at[i] + 1)
  }

  lemma LaterHolds(at: seq<nat>)
    ensures 0 !in Later(at) && forall r: nat :: r > 0 ==> (r in Later(at) <==> r - 1 in at)
  {
    forall r: nat | r > 0 && r - 1 in at ensures r in Later(at) {
      var i :| 0 <= i < |at| && at[i] == r - 1;
      assert Later(at)[i] == r;
    }
  }

  lemma MergedChunks(limits: Limits, chunks: seq<Chunk>)
    returns (runs: seq<seq<Chunk>>, merged: seq<Chunk>, at: seq<nat>)
    ensures merged == MergeAll(limits, [], chunks) && Concat(runs) == chunks
    ensures Renders(limits, runs, merged) && RunsHeld(runs, merged) && KeptAt(merged, Kept(merged), at)
  {
    merged := MergeAll(limits, [], chunks);
    runs := MergePartitions(limits, [], [], chunks);
    RenderedRunsHold(limits, runs, merged);
    at := KeptInPlace(merged);
  }

  /** The chunks of a page are those kept, numbered from 0, or one for the title of an empty page. */
  predicate IsPage(page: seq<Chunk>, kept: seq<Chunk>, title: string) {
    if kept == [] && title != "" then page == [Chunk(0, TitleChunk, [], 1, 1, "")]
    else |page| == |kept| && forall i :: 0 <= i < |page| ==> page[i] == kept[i].(ord := i)
  }

  /** `chunk_page` loses nothing. For every page there is a partition of all packed groups, in
      order, into runs of small siblings, none of which could have gone on, such that the final chunks are
      the renderings of those runs, each once and in order, minus those without text and heading. A chunk
      reads as its run's texts with labels between, and the chunks are numbered 0 to n-1. */
  lemma PageLosesNothing(patterns: Patterns, prose: Prose, limits: Limits, title: string, blocks: seq<Block>)
    returns (runs: seq<seq<Chunk>>, merged: seq<Chunk>, at: seq<nat>)
    ensures Concat(runs) == AllChunks(patterns, prose, limits, Sections(blocks, START))
    ensures Renders(limits, runs, merged) && RunsHeld(runs, merged)
    ensures KeptAt(merged, Kept(merged), at)
    ensures forall chunk :: chunk in Kept(merged) <==> chunk in merged && Shows(chunk)
    ensures IsPage(PageChunks(patterns, prose, limits, title, blocks), Kept(merged), title)
  {
    runs, merged, at := MergedChunks(limits, AllChunks(patterns, prose, limits, Sections(blocks, START)));
    forall chunk ensures chunk in Kept(merged) <==> chunk in merged && Shows(chunk) {
      KeptExactly(merged, chunk);
    }
  }
}
