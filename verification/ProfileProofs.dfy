/** What saving a profile keeps: the round trip of its sections, and what splitting loses. */
module ProfileProofs {
  import opened Common
  import opened PythonText
  import opened Profile

  // ----- what cleaning keeps -----

  function Ink(s: string): nat {
    |Inked(s)|
  }

  lemma {:induction false} NewlinesHaveNoInk(s: string)
    requires forall k :: 0 <= k < |s| ==> s[k] == '\n'
    ensures Inked(s) == ""
  {
    if s != "" { NewlinesHaveNoInk(s[1..]); }
  }

  lemma {:induction false} CollapseKeepsInk(s: string)
    ensures Inked(Collapse(s)) == Inked(s)
    decreases |s|
  {
    if s != "" {
      if s[0] != '\n' {
        CollapseKeepsInk(s[1..]);
        InkedJoin([s[0]], Collapse(s[1..]));
        InkedJoin([s[0]], s[1..]);
        assert [s[0]] + s[1..] == s;
      } else {
        var n := Lead(s);
        var kept := if n >= 3 then "\n\n" else s[..n];
        CollapseKeepsInk(s[n..]);
        NewlinesHaveNoInk(s[..n]);
        NewlinesHaveNoInk(kept);
        InkedJoin(kept, Collapse(s[n..]));
        InkedJoin(s[..n], s[n..]);
        assert s[..n] + s[n..] == s;
      }
    }
  }

  lemma {:induction false} CleanKeepsInk(s: string)
    ensures Inked(Clean(s)) == Inked(s)
  {
    CollapseKeepsInk(s);
    StripKeepsInk(Collapse(s), IsSpace);
  }

  predicate Trimmed(s: string) {
    s == "" || (!IsSpace(s[0]) && !IsSpace(s[|s| - 1]))
  }

  predicate Triple(s: string, i: nat) {
    i + 2 < |s| && s[i] == '\n' && s[i + 1] == '\n' && s[i + 2] == '\n'
  }

  predicate NoTriple(s: string) {
    forall i :: 0 <= i < |s| ==> !Triple(s, i)
  }

  lemma {:induction false} StripLeftPart(s: string)
    ensures exists n :: 0 <= n <= |s| && StripLeft(s, IsSpace) == s[n..]
    ensures StripLeft(s, IsSpace) == "" || !IsSpace(StripLeft(s, IsSpace)[0])
  {
    if s != "" && IsSpace(s[0]) {
      StripLeftPart(s[1..]);
      var n :| 0 <= n <= |s[1..]| && StripLeft(s[1..], IsSpace) == s[1..][n..];
      assert s[1..][n..] == s[n + 1..];
    } else {
      assert s[0..] == s;
    }
  }

  lemma {:induction false} StripRightPart(s: string)
    ensures exists n :: 0 <= n <= |s| && StripRight(s, IsSpace) == s[..n]
    ensures StripRight(s, IsSpace) == "" || !IsSpace(StripRight(s, IsSpace)[|StripRight(s, IsSpace)| - 1])
  {
    if s != "" && IsSpace(s[|s| - 1]) {
      var t := s[..|s| - 1];
      StripRightPart(t);
      var n :| 0 <= n <= |t| && StripRight(t, IsSpace) == t[..n];
      assert t[..n] == s[..n];
    } else {
      assert s[..|s|] == s;
    }
  }

  lemma StripPart(s: string) returns (a: nat, b: nat)
    ensures a <= b <= |s| && Strip(s, IsSpace) == s[a..b] && Trimmed(Strip(s, IsSpace))
  {
    StripLeftPart(s);
    a :| 0 <= a <= |s| && StripLeft(s, IsSpace) == s[a..];
    var t := s[a..];
    StripRightPart(t);
    var n :| 0 <= n <= |t| && StripRight(t, IsSpace) == t[..n];
    b := a + n;
    assert t[..n] == s[a..b];
  }

  lemma TrimmedStays(s: string)
    requires Trimmed(s)
    ensures Strip(s, IsSpace) == s
  {
  }

  lemma TailNoTriple(s: string, n: nat)
    requires NoTriple(s) && n <= |s|
    ensures NoTriple(s[n..])
  {
    forall i | 0 <= i < |s[n..]| ensures !Triple(s[n..], i) {
      assert !Triple(s, n + i);
    }
  }

  lemma {:induction false} CollapseStep(s: string, n: nat)
    requires s != "" && n == if s[0] == '\n' then Lead(s) else 1
    requires NoTriple(s)
    ensures 0 < n <= |s| && Collapse(s) == s[..n] + Collapse(s[n..])
  {
    if n >= 3 { assert Triple(s, 0); }
    assert s[..1] == [s[0]];
  }

  lemma {:induction false} NoTripleStays(s: string)
    requires NoTriple(s)
    ensures Collapse(s) == s
    decreases |s|
  {
    if s != "" {
      var n := if s[0] == '\n' then Lead(s) else 1;
      CollapseStep(s, n);
      TailNoTriple(s, n);
      NoTripleStays(s[n..]);
      assert s[..n] + s[n..] == s;
    }
  }

  lemma {:induction false} CollapseHasNoTriple(s: string)
    ensures NoTriple(Collapse(s))
    ensures s != "" && s[0] != '\n' ==> Collapse(s) != "" && Collapse(s)[0] != '\n'
    decreases |s|
  {
    if s != "" {
      var n := if s[0] == '\n' then Lead(s) else 1;
      CollapseHasNoTriple(s[n..]);
      var rest := Collapse(s[n..]);
      var kept := if s[0] != '\n' then [s[0]] else if n >= 3 then "\n\n" else s[..n];
      assert Collapse(s) == kept + rest;
      if s[n..] == "" { assert rest == ""; }
      JoinHasNoTriple(kept, rest);
    }
  }

  lemma JoinHasNoTriple(kept: string, rest: string)
    requires NoTriple(rest) && |kept| <= 2
    requires (|kept| == 1 && kept[0] != '\n') || rest == "" || rest[0] != '\n'
    ensures NoTriple(kept + rest)
  {
    var s := kept + rest;
    forall i | 0 <= i < |s| ensures !Triple(s, i) {
      if i >= |kept| { assert !Triple(rest, i - |kept|); }
    }
  }

  /** What `Clean` leaves alone, and that it always ends there. */
  lemma CleanFixes(s: string)
    ensures Clean(s) == s <==> Trimmed(s) && NoTriple(s)
    ensures Clean(Clean(s)) == Clean(s)
  {
    CleanResult(s);
    CleanResult(Clean(s));
    CleanStays(Clean(s));
    if Trimmed(s) && NoTriple(s) { CleanStays(s); }
  }

  lemma CleanStays(s: string)
    requires Trimmed(s) && NoTriple(s)
    ensures Clean(s) == s
  {
    NoTripleStays(s);
    TrimmedStays(s);
  }

  lemma CleanResult(s: string)
    ensures Trimmed(Clean(s)) && NoTriple(Clean(s))
  {
    var t := Collapse(s);
    CollapseHasNoTriple(s);
    var a, b := StripPart(t);
    forall i | 0 <= i < |t[a..b]| ensures !Triple(t[a..b], i) {
      assert !Triple(t, a + i);
    }
  }

  // ----- lines of joined texts -----

  lemma {:induction false} LineEndShift(p: string, b: string, i: nat)
    requires i <= |b|
    ensures LineEnd(p + b, |p| + i) == |p| + LineEnd(b, i)
    decreases |b| - i
  {
    if i < |b| {
      assert (p + b)[|p| + i] == b[i];
      if b[i] != '\n' { LineEndShift(p, b, i + 1); }
    }
  }

  /** `s` ends in `b`, from `m` on. */
  predicate EndsIn(s: string, m: nat, b: string) {
    m + |b| == |s| && s[m..] == b
  }

  /** A line of `b` at the end of a longer text is the same line. */
  lemma LineShift(s: string, m: nat, b: string, i: nat, n: nat)
    requires EndsIn(s, m, b) && i <= |b| && n == LineEnd(b, i)
    ensures LineEnd(s, m + i) == m + n && s[m + i..m + n] == b[i..n]
  {
    LineEndShift(s[..m], b, i);
    assert s[..m] + b == s;
    assert s[m..][i..n] == s[m + i..m + n];
  }

  lemma {:induction false} LinesShift(s: string, m: nat, b: string, i: nat)
    requires EndsIn(s, m, b) && i <= |b|
    ensures Lines(s, m + i) == Lines(b, i)
    decreases |b| - i
  {
    var n := LineEnd(b, i);
    LineShift(s, m, b, i, n);
    if n < |b| { LinesShift(s, m, b, n + 1); }
  }

  lemma {:induction false} LineEndBefore(a: string, b: string, i: nat)
    requires i <= |a|
    ensures LineEnd(a + "\n" + b, i) == LineEnd(a, i)
    decreases |a| - i
  {
    var s := a + "\n" + b;
    if i < |a| {
      assert s[i] == a[i];
      if a[i] != '\n' { LineEndBefore(a, b, i + 1); }
    } else {
      assert s[i] == '\n';
    }
  }

  /** `s` is `a`, a newline, and `b`. */
  predicate TwoTexts(s: string, a: string, b: string) {
    s == a + "\n" + b
  }

  lemma {:induction false} LineBefore(s: string, a: string, b: string, i: nat, n: nat)
    requires TwoTexts(s, a, b) && i <= |a| && n == LineEnd(a, i)
    ensures n < |s| && LineEnd(s, i) == n && s[i..n] == a[i..n] && EndsIn(s, |a| + 1, b)
  {
    LineEndBefore(a, b, i);
  }

  lemma Prepend(line: string, a: seq<string>, b: seq<string>)
    ensures [line] + (a + b) == [line] + a + b
  {
  }

  lemma {:induction false} LinesStep(body: string, i: nat, n: nat, after: nat, line: string)
    requires i <= n < after == n + 1 <= |body| && n == LineEnd(body, i) && line == body[i..n]
    ensures Lines(body, i) == [line] + Lines(body, after)
  {
  }

  lemma {:induction false} LastLine(body: string, i: nat, line: string)
    requires i <= |body| && LineEnd(body, i) == |body| && line == body[i..|body|]
    ensures Lines(body, i) == [line]
  {
  }

  lemma {:induction false} JoinOn(s: string, a: string, b: string, i: nat, n: nat, line: string)
    requires TwoTexts(s, a, b) && i <= n < |a| && n == LineEnd(a, i) == LineEnd(s, i) && line == a[i..n] == s[i..n]
    requires Lines(s, n + 1) == Lines(a, n + 1) + Lines(b, 0)
    ensures Lines(s, i) == Lines(a, i) + Lines(b, 0)
  {
    LinesStep(s, i, n, n + 1, line);
    LinesStep(a, i, n, n + 1, line);
    Prepend(line, Lines(a, n + 1), Lines(b, 0));
  }

  lemma {:induction false} JoinEnd(s: string, a: string, b: string, i: nat, n: nat, line: string)
    requires TwoTexts(s, a, b) && i <= n == |a| && n == LineEnd(a, i) == LineEnd(s, i) && line == a[i..n] == s[i..n]
    requires EndsIn(s, n + 1, b)
    ensures Lines(s, i) == Lines(a, i) + Lines(b, 0)
  {
    LinesStep(s, i, n, n + 1, line);
    LinesShift(s, n + 1, b, 0);
    LastLine(a, i, line);
  }

  /** Two texts with a newline between them have the lines of the one, then those of the other. */
  lemma {:induction false} LinesJoin(s: string, a: string, b: string, i: nat)
    requires TwoTexts(s, a, b) && i <= |a|
    ensures Lines(s, i) == Lines(a, i) + Lines(b, 0)
    decreases |a| - i
  {
    var n := LineEnd(a, i);
    LineBefore(s, a, b, i, n);
    if n < |a| {
      LinesJoin(s, a, b, n + 1);
      JoinOn(s, a, b, i, n, a[i..n]);
    } else {
      JoinEnd(s, a, b, i, n, a[i..n]);
    }
  }

  lemma {:induction false} LineEndPlain(s: string, i: nat)
    requires i <= |s| && '\n' !in s
    ensures LineEnd(s, i) == |s|
    decreases |s| - i
  {
    if i < |s| { LineEndPlain(s, i + 1); }
  }

  lemma {:induction false} OneLine(line: string)
    requires '\n' !in line
    ensures Lines(line, 0) == [line]
  {
    LineEndPlain(line, 0);
    assert line[0..|line|] == line;
  }

  /** The lines with a newline between them. */
  function Unlines(lines: seq<string>): string {
    if lines == [] then "" else if |lines| == 1 then lines[0] else lines[0] + "\n" + Unlines(lines[1..])
  }

  lemma {:induction false} LinesMakeTheText(t: string, i: nat)
    requires i <= |t|
    ensures Unlines(Lines(t, i)) == t[i..]
    decreases |t| - i
  {
    var n := LineEnd(t, i);
    if n < |t| {
      var after := n + 1;
      LinesMakeTheText(t, after);
      assert ([t[i..n]] + Lines(t, after))[1..] == Lines(t, after);
      assert t[i..n] + "\n" + t[after..] == t[i..];
    }
  }

  // ----- reading lines -----

  /** The section in which reading these lines ends. */
  function Last(lines: seq<string>, current: Section): Section {
    if lines == [] then current else Last(lines[1..], Next(current, lines[0]))
  }

  /** None of the lines is a heading of the four sections. */
  predicate NoKnown(lines: seq<string>) {
    forall j :: 0 <= j < |lines| ==> Known(lines[j]).None?
  }

  /** The ink of the known headings among the lines. */
  function HeadingInk(lines: seq<string>): nat {
    if lines == [] then 0 else (if Known(lines[0]).Some? then Ink(lines[0]) else 0) + HeadingInk(lines[1..])
  }

  /** Lines are read one after the other. */
  lemma {:induction false} TakenJoin(a: seq<string>, b: seq<string>, current: Section, k: Section)
    requires a != [] && b != []
    ensures Taken(a + b, current, k) == Taken(a, current, k) + If(Last(a, current), k, "\n")
      + Taken(b, Last(a, current), k)
  {
    var rest := a[1..];
    var next := Next(current, a[0]);
    assert a == [a[0]] + rest && a + b == [a[0]] + (rest + b);
    if rest != [] {
      TakenJoin(rest, b, next, k);
      var end := Last(rest, next);
      var mine, yours := Taken(rest, next, k), Taken(b, end, k);
      TakenLine(a[0], rest, current, next, k, mine);
      TakenLine(a[0], rest + b, current, next, k, mine + If(end, k, "\n") + yours);
      Regroup(Kept(current, a[0], k) + If(next, k, "\n"), mine, If(end, k, "\n"), yours);
    } else {
      assert rest + b == b;
      TakenLine(a[0], b, current, next, k, Taken(b, next, k));
    }
  }

  lemma {:induction false} HeadingInkJoin(a: seq<string>, b: seq<string>)
    ensures HeadingInk(a + b) == HeadingInk(a) + HeadingInk(b)
  {
    if a == [] {
      assert a + b == b;
    } else {
      assert (a + b)[1..] == a[1..] + b;
      HeadingInkJoin(a[1..], b);
    }
  }

  lemma {:induction false} PlainLinesAreKept(lines: seq<string>, current: Section, k: Section)
    requires NoKnown(lines)
    ensures Taken(lines, current, k) == If(current, k, Unlines(lines)) && Last(lines, current) == current
  {
    if lines != [] {
      PlainLinesAreKept(lines[1..], current, k);
    }
  }

  /** Text without known headings is kept as it stands, unknown headings included. */
  lemma {:induction false} PlainTextIsKept(t: string, current: Section, k: Section)
    requires NoKnown(Lines(t, 0))
    ensures Taken(Lines(t, 0), current, k) == If(current, k, t) && Last(Lines(t, 0), current) == current
  {
    PlainLinesAreKept(Lines(t, 0), current, k);
    LinesMakeTheText(t, 0);
    assert t[0..] == t;
  }

  /** A known heading has ink. */
  lemma {:induction false} HeadingInkCounts(lines: seq<string>)
    ensures HeadingInk(lines) == 0 <==> NoKnown(lines)
  {
    if lines != [] {
      HeadingInkCounts(lines[1..]);
      if Known(lines[0]).Some? { assert Inked(lines[0]) != ""; }
      assert lines == [lines[0]] + lines[1..];
    }
  }

  // ----- what splitting loses -----

  /** The ink that the four sections take of these lines. */
  function InkOfTaken(lines: seq<string>, current: Section): nat {
    Ink(Taken(lines, current, Personality)) + Ink(Taken(lines, current, Context))
      + Ink(Taken(lines, current, Guidelines)) + Ink(Taken(lines, current, Goals))
  }

  lemma {:induction false} TakenLineInk(lines: seq<string>, current: Section, k: Section)
    requires lines != []
    ensures Ink(Taken(lines, current, k)) == Ink(Kept(current, lines[0], k))
      + Ink(Taken(lines[1..], Next(current, lines[0]), k))
  {
    if |lines| > 1 {
      var next := Next(current, lines[0]);
      var kept, newline, rest := Kept(current, lines[0], k), If(next, k, "\n"), Taken(lines[1..], next, k);
      InkedJoin(kept + newline, rest);
      InkedJoin(kept, newline);
      NewlinesHaveNoInk(newline);
    }
  }

  /** A line goes to one section, unless it is a known heading. */
  lemma LineInk(current: Section, line: string)
    ensures Ink(Kept(current, line, Personality)) + Ink(Kept(current, line, Context))
      + Ink(Kept(current, line, Guidelines)) + Ink(Kept(current, line, Goals)) == if Known(line).Some?
        then 0 else Ink(line)
  {
    assert Ink("") == 0;
  }

  lemma {:induction false} UnlinesInk(lines: seq<string>)
    requires lines != []
    ensures Ink(Unlines(lines)) == Ink(lines[0]) + Ink(Unlines(lines[1..]))
  {
    if |lines| > 1 {
      InkedJoin(lines[0] + "\n", Unlines(lines[1..]));
      InkedJoin(lines[0], "\n");
      NewlinesHaveNoInk("\n");
    }
  }

  lemma {:induction false} TakenInk(lines: seq<string>, current: Section)
    ensures InkOfTaken(lines, current) + HeadingInk(lines) == Ink(Unlines(lines))
  {
    if lines != [] {
      TakenInk(lines[1..], Next(current, lines[0]));
      LineInk(current, lines[0]);
      UnlinesInk(lines);
      TakenLineInk(lines, current, Personality);
      TakenLineInk(lines, current, Context);
      TakenLineInk(lines, current, Guidelines);
      TakenLineInk(lines, current, Goals);
    }
  }

  function InkOf(texts: Texts): nat {
    Ink(Of(texts, Personality)) + Ink(Of(texts, Context)) + Ink(Of(texts, Guidelines)) + Ink(Of(texts, Goals))
  }

  lemma SplitOf(body: string, k: Section)
    ensures k in Split(body) && Of(Split(body), k) == Clean(Share(body, k))
      && Ink(Of(Split(body), k)) == Ink(Share(body, k))
  {
    AllPresent(k);
    CleanKeepsInk(Share(body, k));
  }

  /** Splitting loses nothing that is not blank but the headings of the four sections themselves. */
  lemma {:induction false} SplitLosesOnlyHeadings(body: string)
    ensures InkOf(Split(body)) + HeadingInk(Lines(body, 0)) == Ink(body)
  {
    TakenInk(Lines(body, 0), Personality);
    LinesMakeTheText(body, 0);
    assert body[0..] == body;
    SplitOf(body, Personality);
    SplitOf(body, Context);
    SplitOf(body, Guidelines);
    SplitOf(body, Goals);
  }

  // ----- a written part, read back -----

  lemma NamesLower(k: Section)
    ensures |Lower(Name(k))| == match k case Personality => 11 case Context => 7 case Guidelines => 10 case Goals => 5
  {
  }

  lemma NamesPlain(k: Section)
    ensures '\n' !in Name(k) && Trimmed(Name(k))
  {
    match k case Personality => case Context => case Guidelines => case Goals =>
  }

  /** The headings that joining writes are the ones that splitting knows. */
  lemma HeadingsAreKnown(k: Section)
    ensures Known(Heading(k)) == Some(k) && '\n' !in Heading(k) && Lines(Heading(k), 0) == [Heading(k)]
  {
    var h := Heading(k);
    NamesPlain(k);
    assert h == ['#', '#', ' '] + Name(k);
    OneLine(h);
    assert h[3..] == Name(k);
    TrimmedStays(Name(k));
    var title := Lower(Name(k));
    assert Title(h) == title;
    NamesLower(Personality);
    NamesLower(Context);
    NamesLower(Guidelines);
    NamesLower(Goals);
    match k
    case Personality =>
    case Context => assert Titled(title, 1) == Some(Context);
    case Guidelines => assert Titled(title, 2) == Some(Guidelines); assert Titled(title, 1) == Some(Guidelines);
    case Goals => assert Titled(title, 3) == Some(Goals); assert Titled(title, 2) == Some(Goals);
      assert Titled(title, 1) == Some(Goals);
  }

  /** A part and what follows it: its heading, an empty line, the lines of its text, and the rest. */
  lemma {:induction false} PartLines(k: Section, t: string, b: string, s: string)
    requires TwoTexts(s, Part(k, t), b)
    ensures Lines(s, 0) == [Heading(k)] + [""] + Lines(t, 0) + Lines(b, 0)
  {
    HeadingsAreKnown(k);
    var text := t + "\n" + b;
    var rest := "\n" + text;
    PartSplits(k, t, b, s, text, rest);
    LinesJoin(s, Heading(k), rest, 0);
    EmptyLineFirst(text, rest);
    LinesJoin(text, t, b, 0);
    LinesRegroup([Heading(k)], [""], Lines(t, 0), Lines(b, 0));
  }

  lemma PartSplits(k: Section, t: string, b: string, s: string, text: string, rest: string)
    requires TwoTexts(s, Part(k, t), b) && text == t + "\n" + b && rest == "\n" + text
    ensures TwoTexts(s, Heading(k), rest)
  {
    var h := Heading(k);
    assert h + "\n\n" + t + "\n" + b == h + "\n" + rest;
  }

  lemma LinesRegroup(a: seq<string>, b: seq<string>, c: seq<string>, d: seq<string>)
    ensures a + (b + (c + d)) == a + b + c + d
  {
  }

  lemma {:induction false} EmptyLineFirst(text: string, rest: string)
    requires rest == "\n" + text
    ensures Lines(rest, 0) == [""] + Lines(text, 0)
  {
    assert rest == "" + "\n" + text;
    LinesJoin(rest, "", text, 0);
    OneLine("");
  }

  /** What section `k` takes of the lines of a part of section `own`. */
  lemma {:induction false} PartTaken(own: Section, lines: seq<string>, more: seq<string>, current: Section, k: Section)
    requires NoKnown(lines) && lines != [] && more != []
    ensures Taken([Heading(own)] + [""] + lines + more, current, k)
      == If(own, k, "\n\n" + Unlines(lines) + "\n") + Taken(more, own, k)
  {
    HeadingsAreKnown(own);
    PlainLinesAreKept(lines, own, k);
    var rest := lines + more;
    TakenJoin(lines, more, own, k);
    var text, after := If(own, k, Unlines(lines)), Taken(more, own, k);
    TakenLine("", rest, own, own, k, text + If(own, k, "\n") + after);
    TakenLine(Heading(own), [""] + rest, current, own, k, "" + If(own, k, "\n") + (text + If(own, k, "\n") + after));
    LinesRegroup([Heading(own)], [""], lines, more);
    Padding(own, k, Unlines(lines), after);
  }

  lemma Padding(own: Section, k: Section, text: string, after: string)
    ensures "" + If(own, k, "\n") + ("" + If(own, k, "\n") + (If(own, k, text) + If(own, k, "\n") + after))
      == If(own, k, "\n\n" + text + "\n") + after
  {
    if own == k {
      assert "\n" + ("\n" + (text + "\n" + after)) == "\n\n" + text + "\n" + after;
    }
  }

  lemma {:induction false} PartHeadingInk(own: Section, lines: seq<string>, more: seq<string>)
    ensures HeadingInk([Heading(own)] + [""] + lines + more) == Ink(Heading(own)) + HeadingInk(lines) + HeadingInk(more)
  {
    HeadingsAreKnown(own);
    HeadingInkJoin([Heading(own)] + [""] + lines, more);
    HeadingInkJoin([Heading(own)] + [""], lines);
    HeadingInkJoin([Heading(own)], [""]);
    HeadingInkJoin([], []);
    assert HeadingInk([Heading(own)]) == Ink(Heading(own)) && HeadingInk([""]) == 0;
  }

  lemma PartInk(own: Section, t: string, b: string)
    ensures Ink(Part(own, t) + "\n" + b) == Ink(Heading(own)) + Ink(t) + Ink(b)
  {
    InkedJoin(Part(own, t) + "\n", b);
    InkedJoin(Part(own, t), "\n");
    InkedJoin(Heading(own) + "\n\n", t);
    InkedJoin(Heading(own), "\n\n");
    NewlinesHaveNoInk("\n");
    NewlinesHaveNoInk("\n\n");
  }

  // ----- the whole document -----

  /** What is written for the sections from the `i`th on. */
  function Doc(texts: Texts, i: nat): string
    requires i <= 4
  {
    if Parts(texts, i) == [] then "" else Spaced(Parts(texts, i)) + "\n"
  }

  /** What follows a part. */
  function After(texts: Texts, i: nat): string
    requires i <= 4
  {
    if Doc(texts, i) == "" then "" else "\n" + Doc(texts, i)
  }

  lemma DocStep(texts: Texts, i: nat)
    requires i < 4
    ensures var t := Stripped(texts, Nth(i));
      Doc(texts, i) == if t == "" then Doc(texts, i + 1) else Part(Nth(i), t) + "\n" + After(texts, i + 1)
  {
    var t := Stripped(texts, Nth(i));
    var rest := Parts(texts, i + 1);
    if t != "" {
      assert Parts(texts, i) == [Part(Nth(i), t)] + rest;
      SpacedStep(Part(Nth(i), t), rest);
      if rest != [] { Spread(Part(Nth(i), t), Spaced(rest)); }
    } else {
      assert Parts(texts, i) == rest;
    }
  }

  lemma {:induction false} SpacedStep(part: string, rest: seq<string>)
    ensures Spaced([part] + rest) == if rest == [] then part else part + "\n\n" + Spaced(rest)
  {
    assert ([part] + rest)[1..] == rest;
  }

  lemma Spread(part: string, rest: string)
    ensures part + "\n\n" + rest + "\n" == part + "\n" + ("\n" + (rest + "\n"))
  {
  }

  lemma AfterLines(texts: Texts, i: nat)
    requires i <= 4
    ensures Lines(After(texts, i), 0) == if Doc(texts, i) == "" then [""] else [""] + Lines(Doc(texts, i), 0)
  {
    if Doc(texts, i) != "" { EmptyLineFirst(Doc(texts, i), After(texts, i)); } else { OneLine(""); }
  }

  function Rank(k: Section): nat {
    match k case Personality => 0 case Context => 1 case Guidelines => 2 case Goals => 3
  }

  lemma RankOf(k: Section, i: nat)
    requires i < 4
    ensures Nth(i) == k <==> Rank(k) == i
  {
  }

  /** The texts, stripped, hold no known heading. */
  ghost predicate PlainTexts(texts: Texts) {
    forall k: Section :: PlainAt(texts, k)
  }

  predicate PlainAt(texts: Texts, k: Section) {
    NoKnown(Lines(Stripped(texts, k), 0))
  }

  /** What follows a part is read as the rest, after an empty line. */
  lemma {:induction false} AfterTaken(later: string, b: string, own: Section, k: Section, taken: string)
    requires b == (if later == "" then "" else "\n" + later) && taken == Taken(Lines(later, 0), own, k)
    ensures Taken(Lines(b, 0), own, k) == if later == "" then "" else If(own, k, "\n") + taken
    ensures later == "" ==> taken == ""
  {
    if later == "" {
      OneLine("");
    } else {
      EmptyLineFirst(later, b);
      AfterEmptyLine(Lines(later, 0), own, k, taken);
    }
  }

  lemma NothingFirst(a: string, b: string, c: string)
    requires a == ""
    ensures a + b + c == b + c
  {
  }

  lemma {:induction false} AfterEmptyLine(lines: seq<string>, own: Section, k: Section, taken: string)
    requires lines != [] && taken == Taken(lines, own, k)
    ensures Taken([""] + lines, own, k) == If(own, k, "\n") + taken
  {
    TakenLine("", lines, own, own, k, taken);
    NothingFirst(Kept(own, "", k), If(own, k, "\n"), taken);
  }

  /** What a section takes of the document: its text with newlines around it, if it has a part. */
  lemma {:induction false} DocTaken(texts: Texts, i: nat, current: Section, k: Section)
    requires i <= 4 && PlainTexts(texts)
    ensures DocGives(texts, i, current, k)
    decreases 4 - i
  {
    if i == 4 {
      NothingTaken(texts, current, k);
    } else {
      var next := Entered(texts, i, current);
      DocTaken(texts, i + 1, next, k);
      DocAhead(texts, i, current, next, k);
    }
  }

  /** The section in which the rest is read after the `i`th section's part, if it has one. */
  function Entered(texts: Texts, i: nat, current: Section): Section
    requires i < 4
  {
    if Stripped(texts, Nth(i)) == "" then current else Nth(i)
  }

  lemma DocAhead(texts: Texts, i: nat, current: Section, next: Section, k: Section)
    requires i < 4 && PlainTexts(texts) && next == Entered(texts, i, current) && DocGives(texts, i + 1, next, k)
    ensures DocGives(texts, i, current, k)
  {
    if Stripped(texts, Nth(i)) == "" {
      DocBlankTaken(texts, i, Doc(texts, i), current, k);
    } else {
      DocPartTaken(texts, i, Nth(i), After(texts, i + 1), Doc(texts, i), current, k);
    }
  }

  predicate DocGives(texts: Texts, i: nat, current: Section, k: Section)
    requires i <= 4
  {
    TakesItsText(Taken(Lines(Doc(texts, i), 0), current, k), Stripped(texts, k), Rank(k) >= i)
  }

  lemma NothingTaken(texts: Texts, current: Section, k: Section)
    ensures DocGives(texts, 4, current, k)
  {
    OneLine("");
  }

  predicate TakesItsText(taken: string, t: string, ahead: bool) {
    if !ahead || t == "" then taken == "" else taken == "\n\n" + t + "\n" || taken == "\n\n" + t + "\n\n"
  }

  lemma DocBlankTaken(texts: Texts, i: nat, doc: string, current: Section, k: Section)
    requires i < 4 && Stripped(texts, Nth(i)) == "" && doc == Doc(texts, i)
    requires DocGives(texts, i + 1, current, k)
    ensures DocGives(texts, i, current, k)
  {
    DocStep(texts, i);
    RankOf(k, i);
  }

  /** A part in front of the rest: its section takes the part's text, every other what it takes of
      the rest. */
  lemma {:induction false} PartGives(own: Section, t: string, later: string, b: string, doc: string,
      current: Section, k: Section, mine: string, ahead: bool)
    requires b == (if later == "" then "" else "\n" + later) && TwoTexts(doc, Part(own, t), b)
    requires NoKnown(Lines(t, 0)) && (own == k ==> mine == t != "" && !ahead)
    requires TakesItsText(Taken(Lines(later, 0), own, k), mine, ahead)
    ensures TakesItsText(Taken(Lines(doc, 0), current, k), mine, ahead || own == k)
  {
    var taken := Taken(Lines(later, 0), own, k);
    PartTextTaken(own, t, b, doc, current, k);
    AfterTaken(later, b, own, k, taken);
    PartThenRest(own, k, t, mine, later == "", taken, Taken(Lines(doc, 0), current, k), ahead);
  }

  lemma DocPartTaken(texts: Texts, i: nat, own: Section, b: string, doc: string, current: Section, k: Section)
    requires i < 4 && PlainTexts(texts) && own == Nth(i) && b == After(texts, i + 1) && Stripped(texts, own) != ""
    requires doc == Doc(texts, i) && DocGives(texts, i + 1, own, k)
    ensures DocGives(texts, i, current, k)
  {
    DocStep(texts, i);
    RankOf(k, i);
    assert PlainAt(texts, own);
    PartGives(own, Stripped(texts, own), Doc(texts, i + 1), b, doc, current, k, Stripped(texts, k), Rank(k) >= i + 1);
  }

  lemma PartThenRest(own: Section, k: Section, t: string, mine: string, last: bool, taken: string, whole: string,
      ahead: bool)
    requires whole == If(own, k, "\n\n" + t + "\n") + if last then "" else If(own, k, "\n") + taken
    requires TakesItsText(taken, mine, ahead) && (own == k ==> mine == t != "" && !ahead) && (last ==> taken == "")
    ensures TakesItsText(whole, mine, ahead || own == k)
  {
    Closing(own, k, t, last, taken);
  }

  lemma {:induction false} PartTextTaken(own: Section, t: string, b: string, doc: string, current: Section, k: Section)
    requires TwoTexts(doc, Part(own, t), b) && NoKnown(Lines(t, 0))
    ensures Taken(Lines(doc, 0), current, k) == If(own, k, "\n\n" + t + "\n") + Taken(Lines(b, 0), own, k)
  {
    PartLines(own, t, b, doc);
    PartTaken(own, Lines(t, 0), Lines(b, 0), current, k);
    LinesMakeTheText(t, 0);
    assert t[0..] == t;
  }

  lemma Closing(own: Section, k: Section, t: string, last: bool, taken: string)
    ensures var whole := If(own, k, "\n\n" + t + "\n") + if last then "" else If(own, k, "\n") + taken;
      && (own != k ==> whole == if last then "" else taken)
      && (own == k && taken == "" ==> whole == "\n\n" + t + "\n" || whole == "\n\n" + t + "\n\n")
  {
    if own == k {
      var part := "\n\n" + t + "\n";
      assert part + "" == part && part + ("\n" + "") == "\n\n" + t + "\n\n";
    } else {
      assert "" + "" == "" && "" + ("" + taken) == taken;
    }
  }

  lemma PaddedNoTriple(s: string, t: string, tail: string)
    requires t != "" && Trimmed(t) && NoTriple(t) && tail in {"\n", "\n\n"} && s == "\n\n" + t + tail
    ensures NoTriple(s)
  {
    assert s[2] == t[0] && s[1 + |t|] == t[|t| - 1];
    forall i | 0 <= i < |s| ensures !Triple(s, i) {
      if 2 <= i < 2 + |t| {
        assert !Triple(t, i - 2) && s[i] == t[i - 2];
      }
    }
  }

  lemma {:induction false} StripFront(rest: string)
    requires rest != "" && !IsSpace(rest[0])
    ensures StripLeft("\n\n" + rest, IsSpace) == rest
  {
    var one := "\n" + rest;
    assert StripLeft(rest, IsSpace) == rest;
    assert one[1..] == rest && StripLeft(one, IsSpace) == rest;
    var two := "\n\n" + rest;
    assert two[1..] == one;
  }

  /** Newlines around a settled text go when it is cleaned. */
  lemma PaddedClean(t: string, tail: string)
    requires t != "" && Trimmed(t) && NoTriple(t) && tail in {"\n", "\n\n"}
    ensures Clean("\n\n" + t + tail) == t
  {
    var s := "\n\n" + t + tail;
    PaddedNoTriple(s, t, tail);
    NoTripleStays(s);
    var rest := t + tail;
    StripFront(rest);
    assert s == "\n\n" + rest;
    StripTail(t, tail);
  }

  lemma {:induction false} StripTail(t: string, tail: string)
    requires t != "" && !IsSpace(t[|t| - 1]) && tail in {"\n", "\n\n"}
    ensures StripRight(t + tail, IsSpace) == t
  {
    assert StripRight(t, IsSpace) == t;
    var one := t + "\n";
    assert one[..|one| - 1] == t && StripRight(one, IsSpace) == t;
    var two := one + "\n";
    assert two[..|two| - 1] == one && StripRight(two, IsSpace) == StripRight(one, IsSpace);
    assert tail == "\n\n" ==> t + tail == two;
  }

  /** The ink of a text and of the headings in it. */
  predicate Balance(text: string, written: nat, hidden: nat) {
    Ink(text) + hidden == HeadingInk(Lines(text, 0)) + written
  }

  lemma {:induction false} DocInk(texts: Texts, i: nat)
    requires i <= 4
    ensures Balance(Doc(texts, i), Written(texts, i), Hidden(texts, i))
    decreases 4 - i
  {
    if i == 4 {
      NoInk();
    } else {
      DocInk(texts, i + 1);
      DocInkStep(texts, i, Stripped(texts, Nth(i)), Doc(texts, i));
    }
  }

  lemma DocInkStep(texts: Texts, i: nat, t: string, doc: string)
    requires i < 4 && t == Stripped(texts, Nth(i)) && doc == Doc(texts, i)
    requires Balance(Doc(texts, i + 1), Written(texts, i + 1), Hidden(texts, i + 1))
    ensures Balance(doc, Written(texts, i), Hidden(texts, i))
  {
    DocStep(texts, i);
    if t == "" {
      NoInk();
      assert Hidden(texts, i) == HeadingInk(Lines(t, 0)) + Hidden(texts, i + 1);
      assert Written(texts, i) == Ink(t) + Written(texts, i + 1);
    } else {
      DocPartInk(texts, i, doc, After(texts, i + 1));
    }
  }

  lemma NoInk()
    ensures Ink("") == 0 && HeadingInk(Lines("", 0)) == 0
  {
    OneLine("");
    assert HeadingInk([""]) == 0;
  }

  lemma DocPartInk(texts: Texts, i: nat, doc: string, b: string)
    requires i < 4 && b == After(texts, i + 1) && doc == Part(Nth(i), Stripped(texts, Nth(i))) + "\n" + b
    requires Balance(Doc(texts, i + 1), Written(texts, i + 1), Hidden(texts, i + 1))
    ensures Balance(doc, Written(texts, i), Hidden(texts, i))
  {
    var own := Nth(i);
    var t := Stripped(texts, own);
    PartLines(own, t, b, doc);
    PartHeadingInk(own, Lines(t, 0), Lines(b, 0));
    PartInk(own, t, b);
    AfterInk(texts, i + 1);
  }

  /** The ink of the texts from the `i`th section on, and that of the known headings in them. */
  function Written(texts: Texts, i: nat): nat
    requires i <= 4
    decreases 4 - i
  {
    if i == 4 then 0 else Ink(Stripped(texts, Nth(i))) + Written(texts, i + 1)
  }

  function Hidden(texts: Texts, i: nat): nat
    requires i <= 4
    decreases 4 - i
  {
    if i == 4 then 0 else HeadingInk(Lines(Stripped(texts, Nth(i)), 0)) + Hidden(texts, i + 1)
  }

  lemma AfterInk(texts: Texts, i: nat)
    requires i <= 4
    ensures Ink(After(texts, i)) == Ink(Doc(texts, i))
    ensures HeadingInk(Lines(After(texts, i), 0)) == HeadingInk(Lines(Doc(texts, i), 0))
  {
    AfterLines(texts, i);
    OneLine("");
    if Doc(texts, i) != "" {
      InkedJoin("\n", Doc(texts, i));
      NewlinesHaveNoInk("\n");
      HeadingInkJoin([""], Lines(Doc(texts, i), 0));
      assert HeadingInk([""]) == 0;
    }
  }

  lemma {:induction false} WrittenIsInk(texts: Texts)
    ensures Written(texts, 0) == InkOf(texts)
  {
    StripKeepsInk(Of(texts, Personality), IsSpace);
    StripKeepsInk(Of(texts, Context), IsSpace);
    StripKeepsInk(Of(texts, Guidelines), IsSpace);
    StripKeepsInk(Of(texts, Goals), IsSpace);
    assert Written(texts, 4) == 0;
    assert Written(texts, 2) == Ink(Of(texts, Guidelines)) + Written(texts, 3);
  }

  lemma {:induction false} HiddenFrom(texts: Texts, i: nat)
    requires i <= 4
    ensures Hidden(texts, i) == 0 <==> forall j :: i <= j < 4 ==> PlainAt(texts, Nth(j))
    decreases 4 - i
  {
    if i < 4 {
      HiddenFrom(texts, i + 1);
      HeadingInkCounts(Lines(Stripped(texts, Nth(i)), 0));
    }
  }

  lemma {:induction false} HiddenNothing(texts: Texts)
    ensures Hidden(texts, 0) == 0 <==> PlainTexts(texts)
  {
    HiddenFrom(texts, 0);
    if Hidden(texts, 0) == 0 {
      forall k: Section ensures PlainAt(texts, k) {
        RankOf(k, Rank(k));
        assert PlainAt(texts, Nth(Rank(k)));
      }
    }
  }

  /** Saving and reading back loses exactly the ink of known headings inside the texts. */
  lemma {:induction false} RoundTripInk(texts: Texts)
    ensures InkOf(Split(Join(texts))) + Hidden(texts, 0) == InkOf(texts)
  {
    assert Join(texts) == Doc(texts, 0);
    SplitLosesOnlyHeadings(Join(texts));
    DocInk(texts, 0);
    WrittenIsInk(texts);
  }

  /** A text that comes back as it was saved: trimmed, at most one blank line in a row, and no line
      that is a heading of one of the four sections. */
  predicate Settled(t: string) {
    Trimmed(t) && NoTriple(t) && NoKnown(Lines(t, 0))
  }

  predicate AllSettled(texts: Texts)
    requires texts.Keys == NONE.Keys
  {
    forall k :: k in texts ==> Settled(texts[k])
  }

  lemma SettledComesBack(texts: Texts)
    requires texts.Keys == NONE.Keys && AllSettled(texts)
    ensures Split(Join(texts)) == texts
  {
    forall k: Section ensures PlainAt(texts, k) {
      AllPresent(k);
      TrimmedStays(texts[k]);
    }
    forall k: Section | k in texts ensures Clean(Share(Join(texts), k)) == texts[k] {
      TrimmedStays(texts[k]);
      DocTaken(texts, 0, Personality, k);
      if texts[k] != "" {
        PaddedClean(texts[k], "\n");
        PaddedClean(texts[k], "\n\n");
      } else {
        CleanFixes("");
      }
    }
  }

  lemma ComesBackSettled(texts: Texts)
    requires texts.Keys == NONE.Keys && Split(Join(texts)) == texts
    ensures AllSettled(texts)
  {
    RoundTripInk(texts);
    HiddenNothing(texts);
    forall k: Section | k in texts ensures Settled(texts[k]) {
      CleanResult(Share(Join(texts), k));
      assert texts[k] == Clean(Share(Join(texts), k));
      TrimmedStays(texts[k]);
      assert PlainAt(texts, k);
    }
  }

  /** `split_sections(join_sections(s)) == s` exactly for settled texts. */
  lemma RoundTripExactly(texts: Texts)
    requires texts.Keys == NONE.Keys
    ensures Split(Join(texts)) == texts <==> AllSettled(texts)
  {
    if AllSettled(texts) { SettledComesBack(texts); }
    if Split(Join(texts)) == texts { ComesBackSettled(texts); }
  }

  /** A body read and saved is stable, unless stripping brought a known heading to the front. */
  lemma SavedBodyIsStable(body: string)
    ensures var texts := Split(body);
      Split(Join(texts)) == texts <==> forall k: Section :: k in texts ==> NoKnown(Lines(texts[k], 0))
  {
    var texts := Split(body);
    RoundTripExactly(texts);
    forall k: Section | k in texts ensures Trimmed(texts[k]) && NoTriple(texts[k]) {
      CleanResult(Share(body, k));
    }
  }

  /** An indented heading: reading takes it for text, stripping makes it a heading, and the next
      save loses it. */
  lemma IndentedHeadingIsLost(k: Section)
    ensures var texts := Split(" " + Heading(k));
      Personality in texts && texts[Personality] == Heading(k) && Split(Join(texts)) != texts
  {
    var h := Heading(k);
    HeadingsAreKnown(k);
    assert !IsSpace(h[|h| - 1]);
    IndentedText(" " + h, h);
    SavedBodyIsStable(" " + h);
    assert Lines(h, 0)[0] == h;
  }

  /** An indented heading counts as text of the first section, and stripping makes it a heading. */
  lemma IndentedText(body: string, h: string)
    requires body == " " + h && '\n' !in h && IsHeading(h) && !IsSpace(h[|h| - 1])
    ensures Personality in Split(body) && Split(body)[Personality] == h
  {
    OneLine(body);
    AllPresent(Personality);
    assert body[0] == ' ' && Known(body).None?;
    assert Share(body, Personality) == body;
    NoTripleStays(body);
    assert h[0] == '#' by { assert h[..2] == "##"; }
    assert body[1..] == h && StripLeft(h, IsSpace) == h && StripRight(h, IsSpace) == h;
  }
}
