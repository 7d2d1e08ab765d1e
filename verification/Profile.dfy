/** The four sections of an assistant's profile (apps/daemon/graite/assistant/profile.py:1-37):
    splitting a markdown body into them and joining them back. */
module Profile {
  import opened Common
  import opened PythonText

  datatype Section = Personality | Context | Guidelines | Goals

  /** The sections in their order. */
  function Nth(i: nat): Section
    requires i < 4
  {
    match i case 0 => Personality case 1 => Context case 2 => Guidelines case _ => Goals
  }

  type Texts = map<Section, string>

  const NONE: Texts := map[Personality := "", Context := "", Guidelines := "", Goals := ""]

  /** The text of a section; an absent one is "". */
  function Of(texts: Texts, k: Section): string {
    if k in texts then texts[k] else ""
  }

  function Name(k: Section): string {
    match k
    case Personality => "Personality"
    case Context => "Context"
    case Guidelines => "Guidelines"
    case Goals => "Goals"
  }

  // ----- strings -----

  function LowerChar(c: char): char {
    if 'A' <= c <= 'Z' then (c as int + 32) as char else c
  }

  function Lower(s: string): string {
    seq(|s|, i requires 0 <= i < |s| => LowerChar(s[i]))
  }

  /** How many newlines `s` starts with. */
  function Lead(s: string): (n: nat)
    ensures n <= |s| && (forall k :: 0 <= k < n ==> s[k] == '\n') && (n < |s| ==> s[n] != '\n')
  {
    if s != "" && s[0] == '\n' then 1 + Lead(s[1..]) else 0
  }

  /** Runs of three or more newlines become two. */
  function Collapse(s: string): string {
    if s == "" then ""
    else if s[0] != '\n' then [s[0]] + Collapse(s[1..])
    else (if Lead(s) >= 3 then "\n\n" else s[..Lead(s)]) + Collapse(s[Lead(s)..])
  }

  function Clean(s: string): string {
    Strip(Collapse(s), IsSpace)
  }

  // ----- headings -----

  /** A line the heading pattern matches: two hashes, a blank, and something more. */
  predicate IsHeading(line: string) {
    |line| >= 4 && line[..2] == "##" && (line[2] == ' ' || line[2] == '\t')
  }

  function Title(line: string): string
    requires IsHeading(line)
  {
    Lower(Strip(line[3..], IsSpace))
  }

  /** The first section from the `i`th on with this title. */
  function Titled(title: string, i: nat): (k: Option<Section>)
    requires i <= 4
    ensures k.Some? ==> title == Lower(Name(k.value))
    decreases 4 - i
  {
    if i == 4 then None else if title == Lower(Name(Nth(i))) then Some(Nth(i)) else Titled(title, i + 1)
  }

  /** The section a line opens, if it is a heading of one of the four. */
  function Known(line: string): (k: Option<Section>)
    ensures k.Some? ==> IsHeading(line)
  {
    if IsHeading(line) then Titled(Title(line), 0) else None
  }

  /** Where the line at `i` ends. */
  function LineEnd(s: string, i: nat): (n: nat)
    requires i <= |s|
    ensures i <= n <= |s| && (n < |s| ==> s[n] == '\n')
    decreases |s| - i
  {
    if i == |s| || s[i] == '\n' then i else LineEnd(s, i + 1)
  }

  // ----- splitting -----

  /** The section after a line: a known heading moves on to its own. */
  function Next(current: Section, line: string): Section {
    if Known(line).Some? then Known(line).value else current
  }

  /** What section `k` takes of a line read in section `current`: all of it, unless it is a known
      heading. */
  function Kept(current: Section, line: string, k: Section): string {
    if Known(line).None? && current == k then line else ""
  }

  /** `text` if it goes to section `k`. */
  function If(current: Section, k: Section, text: string): string {
    if current == k then text else ""
  }

  /** The lines of `body[i..]`; a line break at the end leaves an empty last line. */
  function Lines(body: string, i: nat): (lines: seq<string>)
    requires i <= |body|
    ensures lines != []
    decreases |body| - i
  {
    var n := LineEnd(body, i);
    if n == |body| then [body[i..n]] else [body[i..n]] + Lines(body, n + 1)
  }

  /** What section `k` takes of these lines when they are read in section `current`. */
  function Taken(lines: seq<string>, current: Section, k: Section): string {
    if lines == [] then ""
    else
      var next := Next(current, lines[0]);
      if |lines| == 1 then Kept(current, lines[0], k)
      else Kept(current, lines[0], k) + If(next, k, "\n") + Taken(lines[1..], next, k)
  }

  /** What section `k` takes of a whole body. */
  function Share(body: string, k: Section): string {
    Taken(Lines(body, 0), Personality, k)
  }

  function Split(body: string): Texts {
    map k: Section | k in NONE :: Clean(Share(body, k))
  }

  /** Where the next heading line starts, from a line start `i` on; without one, the end. */
  function NextHeading(body: string, i: nat): (found: (bool, nat))
    requires i <= |body|
    ensures i <= found.1 <= |body|
      && if found.0 then IsHeading(body[found.1..LineEnd(body, found.1)]) else found.1 == |body|
    decreases |body| - i
  {
    var end := LineEnd(body, i);
    if IsHeading(body[i..end]) then (true, i)
    else if end == |body| then (false, end)
    else NextHeading(body, end + 1)
  }

  /** The match after one that ended at `end`: the search goes on behind the newline. */
  function HeadingAfter(body: string, end: nat): (found: (bool, nat))
    requires end <= |body| && (end < |body| ==> body[end] == '\n')
    ensures end <= found.1 <= |body|
    ensures if found.0 then end < found.1 && IsHeading(body[found.1..LineEnd(body, found.1)]) else found.1 == |body|
  {
    if end < |body| then NextHeading(body, end + 1) else (false, end)
  }

  /** What is taken from a heading on, or nothing without one. */
  function Rest(body: string, found: bool, start: nat, current: Section, k: Section): string
    requires start <= |body|
  {
    if found then Taken(Lines(body, start), current, k) else ""
  }

  lemma Glue(body: string, i: nat, n: nat, start: nat)
    requires i <= n < start <= |body| && body[n] == '\n'
    ensures body[i..n] + "\n" + body[n + 1..start] == body[i..start]
  {
  }

  lemma Regroup(a: string, b: string, c: string, d: string)
    ensures a + b + (c + d) == a + b + c + d && a + (b + c + d) == a + b + c + d
    ensures a + b + c + d == a + (b + c) + d
  {
  }

  /** One line that goes on and is no known heading, before text of the same section. */
  lemma LineJoins(body: string, i: nat, n: nat, start: nat, current: Section, k: Section, rest: string)
    requires i <= n < start <= |body| && body[n] == '\n'
    ensures If(current, k, body[i..n]) + If(current, k, "\n") + (If(current, k, body[n + 1..start]) + rest)
      == If(current, k, body[i..start]) + rest
  {
    Glue(body, i, n, start);
    Regroup(If(current, k, body[i..n]), If(current, k, "\n"), If(current, k, body[n + 1..start]), rest);
  }

  /** A line and those after it, seen from section `k`. */
  lemma {:induction false} TakenLine(line: string, rest: seq<string>, current: Section, next: Section, k: Section,
      taken: string)
    requires rest != [] && next == Next(current, line) && taken == Taken(rest, next, k)
    ensures Taken([line] + rest, current, k) == Kept(current, line, k) + If(next, k, "\n") + taken
  {
    assert ([line] + rest)[1..] == rest;
  }

  /** One line that is no heading goes to the current section. */
  lemma {:induction false} PlainLine(body: string, i: nat, n: nat, after: nat, start: nat, current: Section,
      k: Section, rest: string)
    requires i <= n < after == n + 1 <= start <= |body| && n == LineEnd(body, i) && !IsHeading(body[i..n])
    requires Taken(Lines(body, after), current, k) == If(current, k, body[after..start]) + rest
    ensures Taken([body[i..n]] + Lines(body, after), current, k) == If(current, k, body[i..start]) + rest
  {
    TakenLine(body[i..n], Lines(body, after), current, current, k, If(current, k, body[after..start]) + rest);
    LineJoins(body, i, n, start, current, k, rest);
  }

  /** Up to the next heading everything goes to the current section. */
  lemma {:induction false} TakenToHeading(body: string, i: nat, current: Section, k: Section, found: bool, start: nat)
    requires i <= |body| && NextHeading(body, i) == (found, start)
    ensures Taken(Lines(body, i), current, k) == If(current, k, body[i..start]) + Rest(body, found, start, current, k)
    decreases |body| - i
  {
    var n := LineEnd(body, i);
    if IsHeading(body[i..n]) {
      assert If(current, k, body[i..i]) == "";
    } else if n < |body| {
      var after := n + 1;
      TakenToHeading(body, after, current, k, found, start);
      PlainLine(body, i, n, after, start, current, k, Rest(body, found, start, current, k));
    } else {
      assert If(current, k, body[i..n]) + "" == Kept(current, body[i..n], k);
    }
  }

  lemma NewlineJoins(body: string, end: nat, next: nat, now: Section, k: Section)
    requires end < next <= |body| && body[end] == '\n'
    ensures If(now, k, "\n") + If(now, k, body[end + 1..next]) == If(now, k, body[end..next])
  {
    assert body[end..end] == "";
    Glue(body, end, end, next);
    assert "" + "\n" + body[end + 1..next] == "\n" + body[end + 1..next];
  }

  /** A heading and everything up to the next one. */
  lemma {:induction false} TakenHeading(body: string, start: nat, end: nat, current: Section, now: Section,
      k: Section, found: bool, next: nat)
    requires start <= |body| && end == LineEnd(body, start) && HeadingAfter(body, end) == (found, next)
    requires now == Next(current, body[start..end])
    ensures Taken(Lines(body, start), current, k) == Kept(current, body[start..end], k) + If(now, k, body[end..next])
      + Rest(body, found, next, now, k)
  {
    if end < |body| {
      TakenToHeading(body, end + 1, now, k, found, next);
      HeadingLine(body, start, end, end + 1, next, current, now, k, Rest(body, found, next, now, k));
    } else {
      HeadingAtEnd(body, start, current, now, k);
    }
  }

  lemma {:induction false} HeadingAtEnd(body: string, start: nat, current: Section, now: Section, k: Section)
    requires start <= |body| && LineEnd(body, start) == |body|
    ensures Taken(Lines(body, start), current, k) == Kept(current, body[start..|body|], k)
      + If(now, k, body[|body|..|body|]) + ""
  {
    assert body[|body|..|body|] == "";
    assert Lines(body, start) == [body[start..|body|]];
  }

  lemma {:induction false} HeadingLine(body: string, start: nat, end: nat, after: nat, next: nat, current: Section,
      now: Section, k: Section, rest: string)
    requires start <= end < after == end + 1 <= next <= |body| && end == LineEnd(body, start)
    requires now == Next(current, body[start..end])
    requires Taken(Lines(body, after), now, k) == If(now, k, body[after..next]) + rest
    ensures Taken([body[start..end]] + Lines(body, after), current, k) == Kept(current, body[start..end], k)
      + If(now, k, body[end..next]) + rest
  {
    var line := body[start..end];
    TakenLine(line, Lines(body, after), current, now, k, If(now, k, body[after..next]) + rest);
    NewlineJoins(body, end, next, now, k);
    Regroup(Kept(current, line, k), If(now, k, "\n"), If(now, k, body[after..next]), rest);
  }

  // ----- the loop -----

  /** Section `k` so far, the text not copied yet, and what the rest of the body holds make `goal`. */
  predicate OnTheWay(body: string, position: nat, start: nat, found: bool, current: Section, k: Section,
      done: string, goal: string)
    requires position <= start <= |body|
  {
    done + If(current, k, body[position..start]) + Rest(body, found, start, current, k) == goal
  }

  lemma {:induction false} HeadingKeeps(body: string, position: nat, start: nat, end: nat, current: Section,
      now: Section, k: Section, done: string, goal: string, found: bool, next: nat)
    requires position <= start <= |body| && OnTheWay(body, position, start, true, current, k, done, goal)
    requires end == LineEnd(body, start) && HeadingAfter(body, end) == (found, next)
      && now == Next(current, body[start..end])
    ensures OnTheWay(body, end, next, found, now, k, done + If(current, k, body[position..start])
      + Kept(current, body[start..end], k), goal)
  {
    TakenHeading(body, start, end, current, now, k, found, next);
    Regroup(done + If(current, k, body[position..start]), Kept(current, body[start..end], k),
      If(now, k, body[end..next]), Rest(body, found, next, now, k));
  }

  function Add(texts: Texts, k: Section, more: string): Texts {
    texts[k := Of(texts, k) + more]
  }

  lemma AllPresent(k: Section)
    ensures k in NONE
  {
    match k case Personality => case Context => case Guidelines => case Goals =>
  }

  /** What one heading line does: the text before it is copied, an unknown heading is copied too. */
  method TakeHeading(body: string, position: nat, start: nat, end: nat, texts: Texts, current: Section)
    returns (texts': Texts, current': Section)
    requires position <= start <= end <= |body|
    ensures current' == Next(current, body[start..end])
    ensures forall k: Section ::
      Of(texts', k) == Of(texts, k) + If(current, k, body[position..start]) + Kept(current, body[start..end], k)
    ensures current in texts ==> texts'.Keys == texts.Keys
  {
    texts', current' := Add(texts, current, body[position..start]), current;
    Added(texts, current, body[position..start]);
    var line := body[start..end];
    var known := Known(line);
    if known.Some? {
      current' := known.value;
    } else {
      Added(texts', current, line);
      texts' := Add(texts', current, line);
    }
  }

  /** Adding to one section leaves the others as they are. */
  lemma Added(texts: Texts, current: Section, more: string)
    ensures forall k: Section :: Of(Add(texts, current, more), k) == Of(texts, k) + If(current, k, more)
  {
    forall k: Section ensures Of(Add(texts, current, more), k) == Of(texts, k) + If(current, k, more) {
      if k != current { assert Of(texts, k) + "" == Of(texts, k); }
    }
  }

  /** Every section is on its way to what it takes of the whole body. */
  ghost predicate AllOnTheWay(body: string, position: nat, start: nat, found: bool, current: Section, texts: Texts) {
    && position <= start <= |body| && texts.Keys == NONE.Keys
    && forall k: Section :: OnTheWay(body, position, start, found, current, k, Of(texts, k), Share(body, k))
  }

  lemma {:induction false} AllStart(body: string, found: bool, start: nat)
    requires NextHeading(body, 0) == (found, start)
    ensures AllOnTheWay(body, 0, start, found, Personality, NONE)
  {
    forall k: Section ensures OnTheWay(body, 0, start, found, Personality, k, Of(NONE, k), Share(body, k)) {
      AllPresent(k);
      TakenToHeading(body, 0, Personality, k, found, start);
    }
  }

  lemma {:induction false} AllKeep(body: string, position: nat, start: nat, end: nat, was: Section, now: Section,
      before: Texts, texts: Texts, found: bool, next: nat)
    requires AllOnTheWay(body, position, start, true, was, before)
    requires end == LineEnd(body, start) && HeadingAfter(body, end) == (found, next)
      && now == Next(was, body[start..end])
    requires forall k: Section ::
      Of(texts, k) == Of(before, k) + If(was, k, body[position..start]) + Kept(was, body[start..end], k)
    requires texts.Keys == before.Keys
    ensures AllOnTheWay(body, end, next, found, now, texts)
  {
    forall k: Section ensures OnTheWay(body, end, next, found, now, k, Of(texts, k), Share(body, k)) {
      HeadingKeeps(body, position, start, end, was, now, k, Of(before, k), Share(body, k), found, next);
    }
  }

  lemma AllEnd(body: string, position: nat, current: Section, texts: Texts)
    requires AllOnTheWay(body, position, |body|, false, current, texts)
    ensures Cleaned(Add(texts, current, body[position..])) == Split(body)
  {
    assert body[position..|body|] == body[position..];
    AllPresent(current);
    var all := Add(texts, current, body[position..]);
    forall k: Section ensures Of(all, k) == Share(body, k) {
      assert OnTheWay(body, position, |body|, false, current, k, Of(texts, k), Share(body, k));
    }
    CleanedTaken(all, body);
  }

  /** `split_sections`: between the headings, text is copied as it stands. */
  method SplitSections(body: string) returns (texts: Texts)
    ensures texts == Split(body)
  {
    texts := NONE;
    var current, position: nat := Personality, 0;
    var (found, start) := NextHeading(body, 0);
    AllStart(body, found, start);
    while found
      invariant position <= start <= |body| && (!found ==> start == |body|)
      invariant AllOnTheWay(body, position, start, found, current, texts)
      decreases |body| - start, found
    {
      var end := LineEnd(body, start);
      var (more, next) := HeadingAfter(body, end);
      ghost var was, before := current, texts;
      AllPresent(current);
      texts, current := TakeHeading(body, position, start, end, texts, current);
      AllKeep(body, position, start, end, was, current, before, texts, more, next);
      position, found, start := end, more, next;
    }
    AllEnd(body, position, current, texts);
    texts := Cleaned(Add(texts, current, body[position..]));
  }

  function Cleaned(texts: Texts): Texts {
    map k | k in texts :: Clean(texts[k])
  }

  lemma CleanedTaken(texts: Texts, body: string)
    requires texts.Keys == NONE.Keys && forall k: Section :: Of(texts, k) == Share(body, k)
    ensures Cleaned(texts) == Split(body)
  {
    forall k: Section | k in texts ensures texts[k] == Share(body, k) {
      assert Of(texts, k) == texts[k];
    }
  }

  // ----- joining -----

  function Heading(k: Section): string {
    "## " + Name(k)
  }

  /** What a section is written as: its text without the blanks around it. */
  function Stripped(texts: Texts, k: Section): string {
    Strip(Of(texts, k), IsSpace)
  }

  function Part(k: Section, text: string): string {
    Heading(k) + "\n\n" + text
  }

  /** The parts of the sections that are not blank, from the `i`th on. */
  function Parts(texts: Texts, i: nat): seq<string>
    requires i <= 4
    decreases 4 - i
  {
    if i == 4 then []
    else
      var text := Stripped(texts, Nth(i));
      (if text != "" then [Part(Nth(i), text)] else []) + Parts(texts, i + 1)
  }

  /** The parts with a blank line between them. */
  function Spaced(parts: seq<string>): string {
    if parts == [] then "" else if |parts| == 1 then parts[0] else parts[0] + "\n\n" + Spaced(parts[1..])
  }

  function Join(texts: Texts): string {
    Spaced(Parts(texts, 0)) + if Parts(texts, 0) != [] then "\n" else ""
  }

  /** `join_sections`. */
  method JoinSections(texts: Texts) returns (body: string)
    ensures body == Join(texts)
  {
    var parts: seq<string> := [];
    for i := 0 to 4
      invariant parts + Parts(texts, i) == Parts(texts, 0)
    {
      var text := Stripped(texts, Nth(i));
      PartsStep(texts, i, parts);
      if text != "" {
        parts := parts + [Part(Nth(i), text)];
      }
    }
    assert parts + [] == parts;
    body := Spaced(parts) + if parts != [] then "\n" else "";
  }

  lemma PartsStep(texts: Texts, i: nat, parts: seq<string>)
    requires i < 4
    ensures var text := Stripped(texts, Nth(i));
      parts + Parts(texts, i) == (if text != "" then parts + [Part(Nth(i), text)] else parts) + Parts(texts, i + 1)
  {
    var text := Stripped(texts, Nth(i));
    var rest := Parts(texts, i + 1);
    if text != "" {
      assert parts + ([Part(Nth(i), text)] + rest) == parts + [Part(Nth(i), text)] + rest;
    } else {
      assert [] + rest == rest;
    }
  }
}
