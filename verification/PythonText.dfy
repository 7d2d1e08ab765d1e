/** Python's string helpers, as far as more than one component uses them. */
module PythonText {
  /** The characters `str.strip()` removes. */
  predicate IsSpace(c: char) {
    '\t' <= c <= '\r' || '\U{001C}' <= c <= ' ' || c == '\U{0085}' || c == '\U{00A0}' || c == '\U{1680}'
    || '\U{2000}' <= c <= '\U{200A}' || c == '\U{2028}' || c == '\U{2029}' || c == '\U{202F}' || c == '\U{205F}'
    || c == '\U{3000}'
  }

  function StripLeft(s: string, drop: char -> bool): (r: string)
    ensures |r| <= |s|
  {
    if s != "" && drop(s[0]) then StripLeft(s[1..], drop) else s
  }

  function StripRight(s: string, drop: char -> bool): (r: string)
    ensures |r| <= |s|
  {
    if s != "" && drop(s[|s| - 1]) then StripRight(s[..|s| - 1], drop) else s
  }

  function Strip(s: string, drop: char -> bool): (r: string)
    ensures |r| <= |s|
  {
    StripRight(StripLeft(s, drop), drop)
  }

  /** `separator.join(parts)`. */
  function JoinWith(parts: seq<string>, separator: string): string {
    if parts == [] then ""
    else if |parts| == 1 then parts[0]
    else parts[0] + separator + JoinWith(parts[1..], separator)
  }

  // ----- what blanks leave -----

  /** The characters that are not blank, in order. */
  function Inked(s: string): string {
    if s == "" then "" else (if IsSpace(s[0]) then "" else [s[0]]) + Inked(s[1..])
  }

  lemma {:induction false} InkedJoin(a: string, b: string)
    ensures Inked(a + b) == Inked(a) + Inked(b)
  {
    if a == "" {
      assert a + b == b;
    } else {
      assert (a + b)[1..] == a[1..] + b;
      InkedJoin(a[1..], b);
    }
  }

  lemma {:induction false} StripLeftKeepsInk(s: string, drop: char -> bool)
    requires forall c :: drop(c) ==> IsSpace(c)
    ensures Inked(StripLeft(s, drop)) == Inked(s)
  {
    if s != "" && drop(s[0]) { StripLeftKeepsInk(s[1..], drop); }
  }

  lemma {:induction false} StripRightKeepsInk(s: string, drop: char -> bool)
    requires forall c :: drop(c) ==> IsSpace(c)
    ensures Inked(StripRight(s, drop)) == Inked(s)
  {
    if s != "" && drop(s[|s| - 1]) {
      var last := [s[|s| - 1]];
      StripRightKeepsInk(s[..|s| - 1], drop);
      InkedJoin(s[..|s| - 1], last);
      assert s[..|s| - 1] + last == s;
      assert last[1..] == "";
    }
  }

  /** Stripping blanks removes nothing else. */
  lemma {:induction false} StripKeepsInk(s: string, drop: char -> bool)
    requires forall c :: drop(c) ==> IsSpace(c)
    ensures Inked(Strip(s, drop)) == Inked(s)
  {
    StripLeftKeepsInk(s, drop);
    StripRightKeepsInk(StripLeft(s, drop), drop);
  }
}
