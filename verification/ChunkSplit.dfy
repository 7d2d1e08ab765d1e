/** Splitting oversized blocks with overlap, and packing parts into groups
    (apps/daemon/graite/index/chunker.py:179-261). */
module ChunkSplit {
  import opened Common
  import opened PythonText
  import opened ChunkLines

  // ----- text -----

  predicate IsNewline(c: char) {
    c == '\n'
  }

  /** `_Block.text`. */
  function TextOf(block: Block): string {
    Strip(JoinWith(block.lines, "\n"), IsNewline)
  }

  // ----- splitting a sequence of items -----

  function Last<T>(s: seq<T>, n: nat): (r: seq<T>)
    ensures |r| == if |s| < n then |s| else n
  {
    s[if |s| < n then 0 else |s| - n..]
  }

  /** The loop shared by tables, lists and code: an item that would not fit starts a new piece,
      which takes the last `carry` items over. `held` is the piece in the making. */
  function SplitItems<T>(items: seq<T>, over: seq<T> -> bool, carry: nat, held: seq<T>): seq<seq<T>>
    decreases |items|
  {
    if items == [] then (if held == [] then [] else [held])
    else if held != [] && over(held + [items[0]])
    then [held] + SplitItems(items[1..], over, carry, Last(held, carry) + [items[0]])
    else SplitItems(items[1..], over, carry, held + [items[0]])
  }

  /** How many items a piece took over from the one before. */
  function Carried<T>(pieces: seq<seq<T>>, k: nat, carry: nat): nat
    requires k < |pieces|
  {
    if k == 0 then 0 else if |pieces[k - 1]| < carry then |pieces[k - 1]| else carry
  }

  /** The items of the pieces without the ones taken over, `skip` of them in the first piece. */
  function NewItems<T>(pieces: seq<seq<T>>, carry: nat, skip: nat): seq<T>
    decreases |pieces|
  {
    if pieces == [] then []
    else
      (if skip <= |pieces[0]| then pieces[0][skip..] else []) +
      NewItems(pieces[1..], carry, if |pieces[0]| < carry then |pieces[0]| else carry)
  }

  /** Piece `k` starts with the last items of the piece before and adds at least one. */
  predicate GoesOn<T(==)>(pieces: seq<seq<T>>, carry: nat, k: nat)
    requires 0 < k < |pieces|
  {
    |pieces[k]| > Carried(pieces, k, carry) && Last(pieces[k - 1], carry) <= pieces[k]
  }

  predicate Chained<T(==)>(pieces: seq<seq<T>>, carry: nat) {
    forall k :: 0 < k < |pieces| ==> GoesOn(pieces, carry, k)
  }

  /** The first item piece `k` adds did not fit into the piece before. */
  predicate HadToSplit<T>(pieces: seq<seq<T>>, over: seq<T> -> bool, carry: nat, k: nat)
    requires 0 < k < |pieces|
  {
    Carried(pieces, k, carry) < |pieces[k]| && over(pieces[k - 1] + [pieces[k][Carried(pieces, k, carry)]])
  }

  predicate SplitLate<T>(pieces: seq<seq<T>>, over: seq<T> -> bool, carry: nat) {
    forall k :: 0 < k < |pieces| ==> HadToSplit(pieces, over, carry, k)
  }

  predicate SizesKept<T>(pieces: seq<seq<T>>, over: seq<T> -> bool, carry: nat) {
    forall k :: 0 <= k < |pieces| ==> pieces[k] != [] && (over(pieces[k]) ==> |pieces[k]| <= carry + 1)
  }

  /** The pieces go on from `held`, `skip` of whose items were taken over, and hold `items` after it. */
  predicate Conserves<T(==)>(pieces: seq<seq<T>>, carry: nat, held: seq<T>, skip: nat, items: seq<T>)
    requires skip <= |held|
  {
    && pieces != [] && held <= pieces[0]
    && NewItems(pieces, carry, skip) == held[skip..] + items
    && Chained(pieces, carry)
  }

  lemma {:induction false} SplitItemsConserve<T>(items: seq<T>, over: seq<T> -> bool, carry: nat, held: seq<T>,
      skip: nat)
    requires held != [] && skip < |held|
    ensures Conserves(SplitItems(items, over, carry, held), carry, held, skip, items)
    decreases |items|
  {
    if items == [] {
      OnlyPiece(carry, held, skip);
    } else if over(held + [items[0]]) {
      var taken := Last(held, carry);
      SplitItemsConserve(items[1..], over, carry, taken + [items[0]], |taken|);
      NextPiece(items, carry, held, skip, taken, SplitItems(items[1..], over, carry, taken + [items[0]]));
    } else {
      SplitItemsConserve(items[1..], over, carry, held + [items[0]], skip);
      assert (held + [items[0]])[skip..] + items[1..] == held[skip..] + items;
    }
  }

  lemma OnlyPiece<T>(carry: nat, held: seq<T>, skip: nat)
    requires skip < |held|
    ensures Conserves([held], carry, held, skip, [])
  {
    assert [held][1..] == [];
    assert held[skip..] + [] == held[skip..];
  }

  lemma NextPiece<T>(items: seq<T>, carry: nat, held: seq<T>, skip: nat, taken: seq<T>, rest: seq<seq<T>>)
    requires items != [] && skip < |held| && taken == Last(held, carry)
    requires Conserves(rest, carry, taken + [items[0]], |taken|, items[1..])
    ensures Conserves([held] + rest, carry, held, skip, items)
  {
    assert ([held] + rest)[1..] == rest;
    assert (taken + [items[0]])[|taken|..] == [items[0]];
    assert [items[0]] + items[1..] == items;
    ChainedFirst(held, rest, carry);
  }

  lemma ChainedFirst<T>(first: seq<T>, rest: seq<seq<T>>, carry: nat)
    requires rest != [] && Chained(rest, carry) && Last(first, carry) <= rest[0] && |rest[0]| > |Last(first, carry)|
    ensures Chained([first] + rest, carry)
  {
    var pieces := [first] + rest;
    forall k | 0 < k < |pieces| ensures GoesOn(pieces, carry, k) {
      if k > 1 {
        assert GoesOn(rest, carry, k - 1);
        assert pieces[k] == rest[k - 1] && pieces[k - 1] == rest[k - 2];
      }
    }
  }

  lemma {:induction false} SplitItemsSizes<T>(items: seq<T>, over: seq<T> -> bool, carry: nat, held: seq<T>)
    requires held != [] && (over(held) ==> |held| <= carry + 1)
    ensures SizesKept(SplitItems(items, over, carry, held), over, carry)
    decreases |items|
  {
    if items != [] {
      if over(held + [items[0]]) {
        SplitItemsSizes(items[1..], over, carry, Last(held, carry) + [items[0]]);
      } else {
        SplitItemsSizes(items[1..], over, carry, held + [items[0]]);
      }
    }
  }

  lemma {:induction false} SplitsLate<T>(items: seq<T>, over: seq<T> -> bool, carry: nat, held: seq<T>)
    requires held != []
    ensures SplitLate(SplitItems(items, over, carry, held), over, carry)
    ensures SplitItems(items, over, carry, held) != [] && held <= SplitItems(items, over, carry, held)[0]
    decreases |items|
  {
    if items != [] {
      if over(held + [items[0]]) {
        var next := Last(held, carry) + [items[0]];
        SplitsLate(items[1..], over, carry, next);
        var rest := SplitItems(items[1..], over, carry, next);
        assert rest[0][|next| - 1] == next[|next| - 1] == items[0];
        LateFirst(held, rest, over, carry);
      } else {
        SplitsLate(items[1..], over, carry, held + [items[0]]);
      }
    }
  }

  lemma LateFirst<T>(first: seq<T>, rest: seq<seq<T>>, over: seq<T> -> bool, carry: nat)
    requires rest != [] && SplitLate(rest, over, carry)
    requires |Last(first, carry)| < |rest[0]| && over(first + [rest[0][|Last(first, carry)|]])
    ensures SplitLate([first] + rest, over, carry)
  {
    var pieces := [first] + rest;
    forall k | 0 < k < |pieces| ensures HadToSplit(pieces, over, carry, k) {
      if k > 1 {
        assert HadToSplit(rest, over, carry, k - 1);
        assert pieces[k] == rest[k - 1] && pieces[k - 1] == rest[k - 2];
      }
    }
  }

  /** Dropping what each piece took over and concatenating gives back the items; every piece adds
      at least one, the first of which did not fit into the piece before; a piece that does not fit
      holds at most `carry + 1` items. */
  lemma {:induction false} OverlapConserves<T>(items: seq<T>, over: seq<T> -> bool, carry: nat)
    ensures var pieces := SplitItems(items, over, carry, []);
      && NewItems(pieces, carry, 0) == items && Chained(pieces, carry) && SizesKept(pieces, over, carry)
      && SplitLate(pieces, over, carry)
  {
    if items != [] {
      var held := [items[0]];
      assert [] + held == held;
      SplitItemsConserve(items[1..], over, carry, held, 0);
      SplitItemsSizes(items[1..], over, carry, held);
      SplitsLate(items[1..], over, carry, held);
      assert held[0..] + items[1..] == items;
    }
  }

  // ----- splitting a block -----

  /** The regular expressions over bare lines: an item marker, and a table's divider row. */
  datatype Patterns = Patterns(isItem: string -> bool, isDivider: string -> bool)

  predicate StartsItem(patterns: Patterns, line: string) {
    patterns.isItem(line) && !(line != "" && (line[0] == ' ' || line[0] == '\t'))
  }

  /** Top-level items of a list, each with its continuation lines. */
  function GroupItems(patterns: Patterns, lines: seq<string>, held: seq<seq<string>>): seq<seq<string>>
    decreases |lines|
  {
    if lines == [] then held
    else if StartsItem(patterns, lines[0]) || held == [] then GroupItems(patterns, lines[1..], held + [[lines[0]]])
    else GroupItems(patterns, lines[1..], held[..|held| - 1] + [held[|held| - 1] + [lines[0]]])
  }

  /** Grouping keeps all lines in order. */
  lemma {:induction false} GroupItemsConcat(patterns: Patterns, lines: seq<string>, held: seq<seq<string>>)
    ensures Concat(GroupItems(patterns, lines, held)) == Concat(held) + lines
    decreases |lines|
  {
    if lines != [] {
      ConcatOne([lines[0]]);
      if StartsItem(patterns, lines[0]) || held == [] {
        GroupItemsConcat(patterns, lines[1..], held + [[lines[0]]]);
        ConcatSplit(held, [[lines[0]]]);
      } else {
        var front, last := held[..|held| - 1], held[|held| - 1];
        GroupItemsConcat(patterns, lines[1..], front + [last + [lines[0]]]);
        ConcatSplit(front, [last + [lines[0]]]);
        ConcatSplit(front, [last]);
        ConcatOne(last);
        ConcatOne(last + [lines[0]]);
        assert held == front + [last];
      }
      assert Concat(held) + [lines[0]] + lines[1..] == Concat(held) + lines;
    }
  }

  /** Each item but the first starts with a line that starts an item, and none of its other lines does. */
  predicate IsItem(patterns: Patterns, item: seq<string>, first: bool) {
    && item != [] && (first || StartsItem(patterns, item[0]))
    && forall i :: 0 < i < |item| ==> !StartsItem(patterns, item[i])
  }

  predicate AreItems(patterns: Patterns, items: seq<seq<string>>) {
    forall k :: 0 <= k < |items| ==> IsItem(patterns, items[k], k == 0)
  }

  lemma {:induction false} GroupItemsAre(patterns: Patterns, lines: seq<string>, held: seq<seq<string>>)
    requires AreItems(patterns, held)
    ensures AreItems(patterns, GroupItems(patterns, lines, held))
    decreases |lines|
  {
    if lines != [] {
      if StartsItem(patterns, lines[0]) || held == [] {
        GroupItemsAre(patterns, lines[1..], held + [[lines[0]]]);
      } else {
        var front, last := held[..|held| - 1], held[|held| - 1];
        assert IsItem(patterns, last, |front| == 0);
        var more := front + [last + [lines[0]]];
        forall k | 0 <= k < |more| ensures IsItem(patterns, more[k], k == 0) {
          if k < |front| { assert IsItem(patterns, held[k], k == 0); }
        }
        GroupItemsAre(patterns, lines[1..], more);
      }
    }
  }

  function Singles(lines: seq<string>): seq<seq<string>> {
    seq(|lines|, i requires 0 <= i < |lines| => [lines[i]])
  }

  function TableHeader(patterns: Patterns, lines: seq<string>): seq<string> {
    if |lines| > 2 && patterns.isDivider(lines[1]) then lines[..2] else []
  }

  function Rows(patterns: Patterns, lines: seq<string>): seq<string> {
    lines[|TableHeader(patterns, lines)|..]
  }

  function RowsOver(header: seq<string>, maximum: nat): seq<string> -> bool {
    rows => |JoinWith(header + rows, "\n")| > maximum
  }

  function ItemsOver(maximum: nat): seq<seq<string>> -> bool {
    items => |JoinWith(Concat(items), "\n")| > maximum
  }

  function Piecewise(block: Block, pieces: seq<seq<string>>, header: seq<string>): seq<Block> {
    seq(|pieces|, i requires 0 <= i < |pieces| => Block(block.kind, header + pieces[i], block.start, block.end, 0, ""))
  }

  function ConcatEach(pieces: seq<seq<seq<string>>>): seq<seq<string>> {
    seq(|pieces|, i requires 0 <= i < |pieces| => Concat(pieces[i]))
  }

  /** How prose is cut: into sentences, and a piece into lines. */
  datatype Prose = Prose(sentences: string -> seq<string>, lines: string -> seq<string>)

  /** `text[-n:]` for a positive `n`. */
  function Tail(s: string, n: nat): string {
    s[if |s| < n then 0 else |s| - n..]
  }

  function CarriedText(current: string, overlap: nat): string {
    if overlap == 0 then "" else StripLeft(Tail(current, overlap), IsSpace) + " "
  }

  function Extend(current: string, sentence: string): string {
    if current == "" then sentence else Strip(current + " " + sentence, IsSpace)
  }

  /** The texts of the pieces of a long paragraph. */
  function SplitProse(sentences: seq<string>, maximum: nat, overlap: nat, current: string): seq<string>
    decreases |sentences|
  {
    if sentences == [] then (if current == "" then [] else [current])
    else if current != "" && |current| + |sentences[0]| + 1 > maximum
    then [current] + SplitProse(sentences[1..], maximum, overlap, Extend(CarriedText(current, overlap), sentences[0]))
    else SplitProse(sentences[1..], maximum, overlap, Extend(current, sentences[0]))
  }

  /** A piece of prose fits, or owes its size to one sentence and the overlap before it. */
  lemma {:induction false} ProseSizes(sentences: seq<string>, maximum: nat, overlap: nat, current: string, longest: nat)
    requires forall i :: 0 <= i < |sentences| ==> |sentences[i]| <= longest
    requires |current| <= maximum || |current| <= overlap + 2 + longest
    ensures forall k :: 0 <= k < |SplitProse(sentences, maximum, overlap, current)| ==>
      |SplitProse(sentences, maximum, overlap, current)[k]| <= maximum
      || |SplitProse(sentences, maximum, overlap, current)[k]| <= overlap + 2 + longest
    decreases |sentences|
  {
    if sentences != [] {
      if current != "" && |current| + |sentences[0]| + 1 > maximum {
        ProseSizes(sentences[1..], maximum, overlap, Extend(CarriedText(current, overlap), sentences[0]), longest);
      } else {
        ProseSizes(sentences[1..], maximum, overlap, Extend(current, sentences[0]), longest);
      }
    }
  }

  function ProseBlocks(block: Block, prose: Prose, texts: seq<string>): seq<Block> {
    seq(|texts|, i requires 0 <= i < |texts| =>
      Block(ParagraphKind, prose.lines(texts[i]), block.start, block.end, 0, ""))
  }

  /** `_split_block`. */
  function SplitBlock(patterns: Patterns, prose: Prose, block: Block, maximum: nat, overlap: nat): seq<Block> {
    if |TextOf(block)| <= maximum then [block]
    else if block.kind == TableKind then
      var header := TableHeader(patterns, block.lines);
      Piecewise(block, SplitItems(Rows(patterns, block.lines), RowsOver(header, maximum), 1, []), header)
    else if block.kind == ListKind || block.kind == CodeKind then
      var items := if block.kind == CodeKind then Singles(block.lines) else GroupItems(patterns, block.lines, []);
      var carry := if block.kind == ListKind then 2 else 0;
      Piecewise(block, ConcatEach(SplitItems(items, ItemsOver(maximum), carry, [])), [])
    else ProseBlocks(block, prose, SplitProse(prose.sentences(TextOf(block)), maximum, overlap, ""))
  }

  /** Header and rows of a table: the first two lines are its header if the second one divides. */
  predicate Headed(patterns: Patterns, lines: seq<string>, header: seq<string>, rows: seq<string>) {
    header + rows == lines && if |lines| > 2 && patterns.isDivider(lines[1]) then |header| == 2 else header == []
  }

  /** A piece over the maximum has at most two rows, and the first new row of a piece did not fit into
      the piece before. */
  predicate TablePieces(pieces: seq<seq<string>>, header: seq<string>, maximum: nat) {
    && (forall k :: 0 <= k < |pieces| ==>
         pieces[k] != [] && (|JoinWith(header + pieces[k], "\n")| > maximum ==> |pieces[k]| <= 2))
    && (forall k :: 0 < k < |pieces| ==> RowDidNotFit(pieces, header, maximum, k))
  }

  predicate RowDidNotFit(pieces: seq<seq<string>>, header: seq<string>, maximum: nat, k: nat)
    requires 0 < k < |pieces|
  {
    Carried(pieces, k, 1) < |pieces[k]| &&
    |JoinWith(header + pieces[k - 1] + [pieces[k][Carried(pieces, k, 1)]], "\n")| > maximum
  }

  /** An oversized table splits into header plus rows: no row is lost, each piece adds a row that did
      not fit before, and a piece over the maximum has at most two. */
  lemma {:induction false} TableSplitConserves(
    patterns: Patterns, prose: Prose, block: Block, maximum: nat, overlap: nat)
    returns (pieces: seq<seq<string>>, header: seq<string>)
    requires block.kind == TableKind && |TextOf(block)| > maximum
    ensures SplitBlock(patterns, prose, block, maximum, overlap) == Piecewise(block, pieces, header)
    ensures Headed(patterns, block.lines, header, NewItems(pieces, 1, 0)) && Chained(pieces, 1)
    ensures TablePieces(pieces, header, maximum)
  {
    header := TableHeader(patterns, block.lines);
    var over := RowsOver(header, maximum);
    OverlapConserves(Rows(patterns, block.lines), over, 1);
    pieces := SplitItems(Rows(patterns, block.lines), over, 1, []);
    assert header + Rows(patterns, block.lines) == block.lines;
    forall k | 0 < k < |pieces| ensures RowDidNotFit(pieces, header, maximum, k) {
      assert HadToSplit(pieces, over, 1, k);
      var row := pieces[k][Carried(pieces, k, 1)];
      assert header + (pieces[k - 1] + [row]) == header + pieces[k - 1] + [row];
    }
  }

  lemma {:induction false} SinglesConcat(lines: seq<string>)
    ensures Concat(Singles(lines)) == lines
    decreases |lines|
  {
    if lines != [] {
      SinglesConcat(lines[1..]);
      assert Singles(lines)[1..] == Singles(lines[1..]);
    }
  }

  /** A piece over the maximum has at most one item more than it took over, and the first new item of
      a piece did not fit into the piece before. */
  predicate ListPieces(pieces: seq<seq<seq<string>>>, carry: nat, maximum: nat) {
    && (forall k :: 0 <= k < |pieces| ==>
         pieces[k] != [] && (|JoinWith(Concat(pieces[k]), "\n")| > maximum ==> |pieces[k]| <= carry + 1))
    && (forall k :: 0 < k < |pieces| ==> ItemDidNotFit(pieces, carry, maximum, k))
  }

  predicate ItemDidNotFit(pieces: seq<seq<seq<string>>>, carry: nat, maximum: nat, k: nat)
    requires 0 < k < |pieces|
  {
    Carried(pieces, k, carry) < |pieces[k]| &&
    |JoinWith(Concat(pieces[k - 1]) + pieces[k][Carried(pieces, k, carry)], "\n")| > maximum
  }

  /** An oversized list or code block: the items hold all lines in order, each item of a list its
      continuation lines and each line of code on its own; no item is lost, each piece adds one that
      did not fit before, and a piece over the maximum has at most three items, or one line of code. */
  lemma {:induction false} ListSplitConserves(
    patterns: Patterns, prose: Prose, block: Block, maximum: nat, overlap: nat)
    returns (pieces: seq<seq<seq<string>>>)
    requires (block.kind == ListKind || block.kind == CodeKind) && |TextOf(block)| > maximum
    ensures SplitBlock(patterns, prose, block, maximum, overlap) == Piecewise(block, ConcatEach(pieces), [])
    ensures var carry := if block.kind == ListKind then 2 else 0;
      var items := NewItems(pieces, carry, 0);
      && Concat(items) == block.lines && Chained(pieces, carry) && ListPieces(pieces, carry, maximum)
      && (if block.kind == ListKind then AreItems(patterns, items)
          else forall i :: 0 <= i < |items| ==> |items[i]| == 1)
  {
    var carry := if block.kind == ListKind then 2 else 0;
    var items := if block.kind == CodeKind then Singles(block.lines) else GroupItems(patterns, block.lines, []);
    var over := ItemsOver(maximum);
    SinglesConcat(block.lines);
    GroupItemsConcat(patterns, block.lines, []);
    GroupItemsAre(patterns, block.lines, []);
    OverlapConserves(items, over, carry);
    pieces := SplitItems(items, over, carry, []);
    forall k | 0 < k < |pieces| ensures ItemDidNotFit(pieces, carry, maximum, k) {
      assert HadToSplit(pieces, over, carry, k);
      ConcatSplit(pieces[k - 1], [pieces[k][Carried(pieces, k, carry)]]);
      ConcatOne(pieces[k][Carried(pieces, k, carry)]);
    }
  }

  // ----- packing -----

  function PartSize(part: Block): nat {
    |TextOf(part)| + 2
  }

  function Size(parts: seq<Block>): nat {
    if parts == [] then 0 else Size(parts[..|parts| - 1]) + PartSize(parts[|parts| - 1])
  }

  /** `_pack` over the parts; `held` is the open group. */
  function Pack(parts: seq<Block>, target: nat, held: seq<Block>): seq<seq<Block>>
    decreases |parts|
  {
    if parts == [] then (if held == [] then [] else [held])
    else if held != [] && Size(held) + PartSize(parts[0]) > target then [held] + Pack(parts[1..], target, [parts[0]])
    else Pack(parts[1..], target, held + [parts[0]])
  }

  /** A group is not empty, and exceeds the target only when it holds a single part. */
  predicate GroupFits(group: seq<Block>, target: nat) {
    group != [] && (Size(group) > target ==> |group| == 1)
  }

  /** The first part of group `k` would not have fitted into the group before. */
  predicate HadToClose(groups: seq<seq<Block>>, target: nat, k: nat)
    requires 0 < k < |groups|
  {
    groups[k] != [] ==> Size(groups[k - 1]) + PartSize(groups[k][0]) > target
  }

  predicate Greedy(groups: seq<seq<Block>>, target: nat) {
    forall k :: 0 < k < |groups| ==> HadToClose(groups, target, k)
  }

  lemma SizeOne(part: Block)
    ensures Size([part]) == PartSize(part)
  {
    assert [part][..0] == [];
    assert Size([]) == 0;
  }

  lemma {:induction false} SizeAppend(held: seq<Block>, part: Block)
    ensures Size(held + [part]) == Size(held) + PartSize(part)
  {
    assert (held + [part])[..|held|] == held;
  }

  /** The groups go on from `held` and hold `parts` after it. */
  predicate Packed(groups: seq<seq<Block>>, target: nat, held: seq<Block>, parts: seq<Block>) {
    && groups != [] && held <= groups[0] && Concat(groups) == held + parts
    && (forall k :: 0 <= k < |groups| ==> GroupFits(groups[k], target))
    && Greedy(groups, target)
  }

  lemma {:induction false} PackKeeps(parts: seq<Block>, target: nat, held: seq<Block>)
    requires held != [] && GroupFits(held, target)
    ensures Packed(Pack(parts, target, held), target, held, parts)
    decreases |parts|
  {
    if parts == [] {
      OnlyGroup(target, held);
    } else if Size(held) + PartSize(parts[0]) > target {
      SizeOne(parts[0]);
      PackKeeps(parts[1..], target, [parts[0]]);
      NextGroup(parts, target, held, Pack(parts[1..], target, [parts[0]]));
    } else {
      SizeAppend(held, parts[0]);
      PackKeeps(parts[1..], target, held + [parts[0]]);
      WiderGroup(parts, target, held, Pack(parts[1..], target, held + [parts[0]]));
    }
  }

  lemma WiderGroup(parts: seq<Block>, target: nat, held: seq<Block>, groups: seq<seq<Block>>)
    requires parts != [] && Packed(groups, target, held + [parts[0]], parts[1..])
    ensures Packed(groups, target, held, parts)
  {
    assert held + [parts[0]] + parts[1..] == held + parts;
  }

  lemma OnlyGroup(target: nat, held: seq<Block>)
    requires held != [] && GroupFits(held, target)
    ensures Packed([held], target, held, [])
  {
    assert [held][1..] == [];
    assert held + [] == held;
  }

  lemma {:induction false} NextGroup(parts: seq<Block>, target: nat, held: seq<Block>, rest: seq<seq<Block>>)
    requires parts != [] && held != [] && GroupFits(held, target) && Size(held) + PartSize(parts[0]) > target
    requires Packed(rest, target, [parts[0]], parts[1..])
    ensures Packed([held] + rest, target, held, parts)
  {
    assert ([held] + rest)[1..] == rest;
    assert [parts[0]] + parts[1..] == parts;
    GreedyFirst(held, rest, target);
  }

  lemma {:induction false} GreedyFirst(first: seq<Block>, rest: seq<seq<Block>>, target: nat)
    requires rest != [] && Greedy(rest, target) && rest[0] != [] && Size(first) + PartSize(rest[0][0]) > target
    ensures Greedy([first] + rest, target)
  {
    var groups := [first] + rest;
    forall k | 0 < k < |groups| ensures HadToClose(groups, target, k) {
      if k > 1 {
        assert HadToClose(rest, target, k - 1);
        assert groups[k] == rest[k - 1] && groups[k - 1] == rest[k - 2];
      }
    }
  }

  /** Packing keeps all parts in order, closes a group only when the next part would not fit, and
      lets a group exceed the target only when it holds one part. */
  lemma {:induction false} PackConserves(parts: seq<Block>, target: nat)
    ensures var groups := Pack(parts, target, []);
      && Concat(groups) == parts && Greedy(groups, target)
      && forall k :: 0 <= k < |groups| ==> GroupFits(groups[k], target)
  {
    if parts != [] {
      assert [] + [parts[0]] == [parts[0]];
      SizeOne(parts[0]);
      PackKeeps(parts[1..], target, [parts[0]]);
      assert [parts[0]] + parts[1..] == parts;
    }
  }

  // ----- the loops -----

  /** The loops of `_split_block` over rows, items and code lines. */
  method SplitItemsLoop<T>(items: seq<T>, over: seq<T> -> bool, carry: nat) returns (pieces: seq<seq<T>>)
    ensures pieces == SplitItems(items, over, carry, [])
  {
    pieces := [];
    var current: seq<T> := [];
    for i := 0 to |items|
      invariant pieces + SplitItems(items[i..], over, carry, current) == SplitItems(items, over, carry, [])
    {
      assert items[i..][1..] == items[i + 1..];
      ghost var rest := SplitItems(items[i..], over, carry, current);
      if current != [] && over(current + [items[i]]) {
        assert pieces + rest == pieces + [current] + rest[1..];
        pieces := pieces + [current];
        current := Last(current, carry);
      }
      current := current + [items[i]];
    }
    if current != [] { pieces := pieces + [current]; }
  }

  /** `_pack`: `size` is the running size of the open group. */
  method PackLoop(patterns: Patterns, prose: Prose, blocks: seq<Block>, target: nat, maximum: nat, overlap: nat)
    returns (groups: seq<seq<Block>>)
    ensures groups == Pack(Concat(SplitEach(patterns, prose, blocks, maximum, overlap)), target, [])
  {
    groups := [];
    var current: seq<Block> := [];
    var size := 0;
    ghost var left := Concat(SplitEach(patterns, prose, blocks, maximum, overlap));
    ghost var all := Pack(left, target, []);
    for i := 0 to |blocks|
      invariant size == Size(current)
      invariant left == Concat(SplitEach(patterns, prose, blocks[i..], maximum, overlap))
      invariant groups + Pack(left, target, current) == all
    {
      var parts := SplitBlock(patterns, prose, blocks[i], maximum, overlap);
      SplitEachFirst(patterns, prose, blocks[i..], maximum, overlap);
      ghost var after := Concat(SplitEach(patterns, prose, blocks[i + 1..], maximum, overlap));
      assert blocks[i..][1..] == blocks[i + 1..];
      assert left == parts[0..] + after;
      groups, current, size := PackParts(parts, target, groups, current, size, after);
      left := after;
    }
    if current != [] { groups := groups + [current]; }
  }

  method PackParts(parts: seq<Block>, target: nat, groups0: seq<seq<Block>>, current0: seq<Block>, size0: nat,
      ghost after: seq<Block>)
    returns (groups: seq<seq<Block>>, current: seq<Block>, size: nat)
    requires size0 == Size(current0)
    ensures size == Size(current)
    ensures groups + Pack(after, target, current) == groups0 + Pack(parts + after, target, current0)
  {
    groups, current, size := groups0, current0, size0;
    assert parts[0..] == parts;
    for j := 0 to |parts|
      invariant size == Size(current)
      invariant groups + Pack(parts[j..] + after, target, current) == groups0 + Pack(parts + after, target, current0)
    {
      var part := parts[j];
      var length := PartSize(part);
      ghost var left := parts[j..] + after;
      assert left[0] == part && left[1..] == parts[j + 1..] + after;
      SizeOne(part);
      SizeAppend(current, part);
      if current != [] && size + length > target {
        assert groups + Pack(left, target, current) == groups + [current] + Pack(left[1..], target, [part]);
        groups := groups + [current];
        current, size := [], 0;
      }
      current := current + [part];
      size := size + length;
    }
    assert parts[|parts|..] + after == after;
  }

  function SplitEach(patterns: Patterns, prose: Prose, blocks: seq<Block>, maximum: nat, overlap: nat)
    : seq<seq<Block>>
  {
    seq(|blocks|, i requires 0 <= i < |blocks| => SplitBlock(patterns, prose, blocks[i], maximum, overlap))
  }

  lemma SplitEachFirst(patterns: Patterns, prose: Prose, blocks: seq<Block>, maximum: nat, overlap: nat)
    requires blocks != []
    ensures Concat(SplitEach(patterns, prose, blocks, maximum, overlap))
         == SplitBlock(patterns, prose, blocks[0], maximum, overlap)
           + Concat(SplitEach(patterns, prose, blocks[1..], maximum, overlap))
  {
    assert SplitEach(patterns, prose, blocks, maximum, overlap)[1..]
      == SplitEach(patterns, prose, blocks[1..], maximum, overlap);
  }
}
