/** The .NET string operations the scheduler's startup code relies on, over
    strings as sequences of characters: `string.IsNullOrWhiteSpace`,
    ordinal case-insensitive equality and containment, ordinal `EndsWith`
    and character replacement. */
module DotNetStrings {
  import opened Wrappers

  /** `char.IsWhiteSpace`: the members of the Unicode categories SpaceSeparator,
      LineSeparator and ParagraphSeparator, the control characters U+0009 to
      U+000D, and U+0085. */
  predicate IsWhiteSpace(c: char) {
    ('\U{0009}' <= c <= '\U{000D}') || c == '\U{0020}' || c == '\U{0085}' || c == '\U{00A0}'
    || c == '\U{1680}' || ('\U{2000}' <= c <= '\U{200A}') || c == '\U{2028}' || c == '\U{2029}'
    || c == '\U{202F}' || c == '\U{205F}' || c == '\U{3000}'
  }

  /** `string.IsNullOrWhiteSpace`: the value is null, empty, or only white space. */
  predicate IsNullOrWhiteSpace(s: Option<string>) {
    s.None? || forall i :: 0 <= i < |s.value| ==> IsWhiteSpace(s.value[i])
  }

  /** The characters `char.IsWhiteSpace` accepts, listed one by one. */
  const WhiteSpaceChars: set<char> := {
    '\U{0009}', '\U{000A}', '\U{000B}', '\U{000C}', '\U{000D}', '\U{0020}', '\U{0085}', '\U{00A0}',
    '\U{1680}', '\U{2000}', '\U{2001}', '\U{2002}', '\U{2003}', '\U{2004}', '\U{2005}', '\U{2006}',
    '\U{2007}', '\U{2008}', '\U{2009}', '\U{200A}', '\U{2028}', '\U{2029}', '\U{202F}', '\U{205F}',
    '\U{3000}'}

  /** The white-space test accepts exactly the listed characters. */
  lemma WhiteSpaceIsListed(c: char)
    ensures IsWhiteSpace(c) <==> c in WhiteSpaceChars
  {
    if '\U{2000}' <= c <= '\U{200A}' {
      var n := c as int;
      assert 0x2000 <= n <= 0x200A;
      assert c == n as char;
    } else if '\U{0009}' <= c <= '\U{000D}' {
      var n := c as int;
      assert 0x0009 <= n <= 0x000D;
      assert c == n as char;
    }
  }

  /** `value.TrimStart()`: the string without its leading white space. */
  function TrimStart(s: string): (t: string)
    ensures |t| <= |s| && t == s[|s| - |t|..]
    ensures t != [] ==> !IsWhiteSpace(t[0])
    ensures forall i :: 0 <= i < |s| - |t| ==> IsWhiteSpace(s[i])
    decreases |s|
  {
    if |s| > 0 && IsWhiteSpace(s[0]) then TrimStart(s[1..]) else s
  }

  /** A non-null string is null or white space exactly when trimming its
      leading white space leaves nothing. */
  lemma {:induction false} NullOrWhiteSpaceIsEmptyAfterTrim(s: string)
    ensures IsNullOrWhiteSpace(Some(s)) <==> TrimStart(s) == []
    decreases |s|
  {
    if |s| > 0 && IsWhiteSpace(s[0]) {
      NullOrWhiteSpaceIsEmptyAfterTrim(s[1..]);
      assert forall i :: 0 < i < |s| ==> s[1..][i - 1] == s[i];
    }
  }

  /** The per-character mapping of ordinal case-insensitive comparison, for
      ASCII letters: lower case is mapped to upper case. */
  function FoldCase(c: char): (u: char)
    ensures !('a' <= u <= 'z')
    ensures 'A' <= c <= 'Z' ==> u == c
    ensures !('a' <= c <= 'z') ==> u == c
    ensures 'a' <= c <= 'z' ==> u as int == c as int - 32
  {
    if 'a' <= c <= 'z' then (c as int - 32) as char else c
  }

  /** `string.Equals(a, b, StringComparison.OrdinalIgnoreCase)` on two non-null strings. */
  predicate EqualsIgnoreCase(a: string, b: string) {
    |a| == |b| && forall i :: 0 <= i < |a| ==> FoldCase(a[i]) == FoldCase(b[i])
  }

  /** The whole string with every character folded. */
  function FoldAll(s: string): (f: string)
    ensures |f| == |s|
    ensures forall i :: 0 <= i < |s| ==> f[i] == FoldCase(s[i])
  {
    seq(|s|, i requires 0 <= i < |s| => FoldCase(s[i]))
  }

  /** Ordinal case-insensitive equality is equality after folding. */
  lemma EqualsIgnoreCaseByFolding(a: string, b: string)
    ensures EqualsIgnoreCase(a, b) <==> FoldAll(a) == FoldAll(b)
  {
    if FoldAll(a) == FoldAll(b) {
      assert forall i :: 0 <= i < |a| ==> FoldAll(a)[i] == FoldAll(b)[i];
    }
  }

  /** `p` occurs in `s` at offset `i`, ignoring case. */
  predicate MatchesAt(s: string, p: string, i: int) {
    0 <= i && i + |p| <= |s| && EqualsIgnoreCase(s[i..i + |p|], p)
  }

  /** `s.Contains(p, StringComparison.OrdinalIgnoreCase)`: some offset of `s`
      holds `p` up to case (the empty pattern is found in every string). */
  function ContainsIgnoreCase(s: string, p: string): (b: bool)
    ensures b <==> exists i :: MatchesAt(s, p, i)
    decreases |s|
  {
    if |p| > |s| then
      assert forall i :: !MatchesAt(s, p, i);
      false
    else if EqualsIgnoreCase(s[..|p|], p) then
      assert MatchesAt(s, p, 0);
      true
    else
      ShiftMatches(s, p);
      ContainsIgnoreCase(s[1..], p)
  }

  /** Dropping the first character shifts a match one place to the left. */
  lemma ShiftMatchAt(s: string, p: string, i: int)
    requires |s| > 0 && 0 <= i
    ensures MatchesAt(s[1..], p, i) <==> MatchesAt(s, p, i + 1)
  {
    if 0 <= i && i + |p| <= |s| - 1 {
      assert s[1..][i..i + |p|] == s[i + 1..i + 1 + |p|];
    }
  }

  /** Dropping the first character loses only a match at offset 0. */
  lemma ShiftMatches(s: string, p: string)
    requires |s| > 0
    ensures (exists i :: MatchesAt(s, p, i)) <==> MatchesAt(s, p, 0) || exists i :: MatchesAt(s[1..], p, i)
  {
    if exists i :: MatchesAt(s, p, i) {
      var i :| MatchesAt(s, p, i);
      if i > 0 {
        ShiftMatchAt(s, p, i - 1);
      }
    }
    if exists i :: MatchesAt(s[1..], p, i) {
      var i :| MatchesAt(s[1..], p, i);
      ShiftMatchAt(s, p, i);
    }
  }

  /** Folding the text does not change where the pattern matches. */
  lemma FoldedMatchAt(s: string, p: string, i: int)
    ensures MatchesAt(FoldAll(s), p, i) <==> MatchesAt(s, p, i)
  {
    var f := FoldAll(s);
    if 0 <= i && i + |p| <= |s| {
      var fs, ss := f[i..i + |p|], s[i..i + |p|];
      forall k | 0 <= k < |p|
        ensures FoldCase(fs[k]) == FoldCase(ss[k])
      {
        assert fs[k] == f[i + k];
        assert ss[k] == s[i + k];
      }
    }
  }

  /** Case-insensitive containment does not see the case of the searched text. */
  lemma ContainsIgnoresCaseOfText(s: string, p: string)
    ensures ContainsIgnoreCase(FoldAll(s), p) == ContainsIgnoreCase(s, p)
  {
    var f := FoldAll(s);
    if exists i :: MatchesAt(f, p, i) {
      var i :| MatchesAt(f, p, i);
      FoldedMatchAt(s, p, i);
    }
    if exists i :: MatchesAt(s, p, i) {
      var i :| MatchesAt(s, p, i);
      FoldedMatchAt(s, p, i);
    }
  }

  /** A text that holds the pattern in any case between two other texts
      contains the pattern. */
  lemma OccurrenceIsFound(before: string, q: string, after: string, p: string)
    requires EqualsIgnoreCase(q, p)
    ensures ContainsIgnoreCase(before + q + after, p)
  {
    var s := before + q + after;
    assert s[|before|..|before| + |p|] == q;
    assert MatchesAt(s, p, |before|);
  }

  /** `a.EndsWith(b, StringComparison.Ordinal)`: the last `|b|` characters of `a` are `b`. */
  predicate EndsWith(a: string, b: string) {
    |b| <= |a| && a[|a| - |b|..] == b
  }

  /** Ordinal `EndsWith` holds exactly for the strings made by appending the suffix. */
  lemma EndsWithIsSuffix(a: string, b: string)
    ensures EndsWith(a, b) <==> exists p :: a == p + b
  {
    if EndsWith(a, b) {
      assert a == a[..|a| - |b|] + b;
    }
    if exists p :: a == p + b {
      var p :| a == p + b;
      assert a[|a| - |b|..] == b;
    }
  }

  /** `s.Replace(from, to)` for single characters. */
  function ReplaceChar(s: string, from: char, to: char): (r: string)
    ensures |r| == |s|
    ensures from != to ==> from !in r
    ensures forall i :: 0 <= i < |s| && s[i] != from ==> r[i] == s[i]
    ensures forall i :: 0 <= i < |s| && s[i] == from ==> r[i] == to
  {
    seq(|s|, i requires 0 <= i < |s| => if s[i] == from then to else s[i])
  }

  /** `args.FirstOrDefault()` on an array of strings. */
  function FirstOrDefault(args: seq<string>): (r: Option<string>)
    ensures r.None? <==> |args| == 0
    ensures r.Some? ==> r.value == args[0]
  {
    if |args| == 0 then None else Some(args[0])
  }
}
