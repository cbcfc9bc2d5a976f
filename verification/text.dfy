/**
 * The handful of Kotlin and java.util.regex string primitives the settings reader relies on:
 * `trim()`, `indexOf`, `lastIndexOf`, `split(",")`, `removeSurrounding`, and the
 * character classes `\s` and `\w` of Java regular expressions.
 */
module Text {
  import opened Wrappers

  /** Kotlin's `Char.isWhitespace()`: Java's `Character.isWhitespace` or `Character.isSpaceChar`. */
  predicate IsKotlinWhitespace(c: char) {
    || c == '\t' || c == '\n' || c == '\U{000B}' || c == '\U{000C}' || c == '\r'
    || ('\U{001C}' <= c <= '\U{001F}')
    || c == ' ' || c == '\U{00A0}' || c == '\U{1680}'
    || ('\U{2000}' <= c <= '\U{200A}')
    || c == '\U{2028}' || c == '\U{2029}' || c == '\U{202F}' || c == '\U{205F}' || c == '\U{3000}'
  }

  /** The regex class `\s` of java.util.regex without UNICODE_CHARACTER_CLASS: `[ \t\n\x0B\f\r]`. */
  predicate IsRegexSpace(c: char) {
    c == ' ' || c == '\t' || c == '\n' || c == '\U{000B}' || c == '\U{000C}' || c == '\r'
  }

  /** The regex class `\w` of java.util.regex: `[a-zA-Z_0-9]`. */
  predicate IsWordChar(c: char) {
    ('a' <= c <= 'z') || ('A' <= c <= 'Z') || ('0' <= c <= '9') || c == '_'
  }

  /** No character of `s` is in `cs`. */
  predicate Avoids(s: string, cs: set<char>) {
    forall i :: 0 <= i < |s| ==> s[i] !in cs
  }

  predicate StartsWith(s: string, prefix: string) {
    |prefix| <= |s| && s[..|prefix|] == prefix
  }

  lemma AvoidsConcat(a: string, b: string, cs: set<char>)
    ensures Avoids(a + b, cs) <==> Avoids(a, cs) && Avoids(b, cs)
  {
    if Avoids(a, cs) && Avoids(b, cs) {
      forall i | 0 <= i < |a + b|
        ensures (a + b)[i] !in cs
      {
        if i >= |a| {
          assert (a + b)[i] == b[i - |a|];
        }
      }
    }
    if Avoids(a + b, cs) {
      forall i | 0 <= i < |b|
        ensures b[i] !in cs
      {
        assert (a + b)[|a| + i] == b[i];
      }
      forall i | 0 <= i < |a|
        ensures a[i] !in cs
      {
        assert (a + b)[i] == a[i];
      }
    }
  }

  // ---------------------------------------------------------------------------------------
  // trim()
  // ---------------------------------------------------------------------------------------

  /** Number of leading Kotlin-whitespace characters of `s`. */
  function LeadingWhitespace(s: string): (n: nat)
    ensures n <= |s|
    ensures forall i :: 0 <= i < n ==> IsKotlinWhitespace(s[i])
    ensures n < |s| ==> !IsKotlinWhitespace(s[n])
  {
    if |s| > 0 && IsKotlinWhitespace(s[0]) then 1 + LeadingWhitespace(s[1..]) else 0
  }

  /** Number of trailing Kotlin-whitespace characters of `s`. */
  function TrailingWhitespace(s: string): (n: nat)
    ensures n <= |s|
    ensures forall i :: |s| - n <= i < |s| ==> IsKotlinWhitespace(s[i])
    ensures n < |s| ==> !IsKotlinWhitespace(s[|s| - 1 - n])
  {
    if |s| > 0 && IsKotlinWhitespace(s[|s| - 1]) then 1 + TrailingWhitespace(s[..|s| - 1]) else 0
  }

  /** Kotlin's `String.trim()`: drops leading, then trailing, whitespace. */
  function Trim(s: string): (r: string)
    ensures |r| <= |s|
    ensures |r| > 0 ==> !IsKotlinWhitespace(r[0]) && !IsKotlinWhitespace(r[|r| - 1])
    ensures LeadingWhitespace(s) + |r| <= |s| && r == s[LeadingWhitespace(s)..LeadingWhitespace(s) + |r|]
    ensures forall i :: LeadingWhitespace(s) + |r| <= i < |s| ==> IsKotlinWhitespace(s[i])
  {
    var lead := LeadingWhitespace(s);
    var t := s[lead..];
    var r := t[..|t| - TrailingWhitespace(t)];
    assert r == s[lead..lead + |r|];
    r
  }

  /** Trimming text that is already free of surrounding whitespace changes nothing. */
  lemma TrimUnpadded(x: string)
    requires |x| > 0 && !IsKotlinWhitespace(x[0]) && !IsKotlinWhitespace(x[|x| - 1])
    ensures Trim(x) == x
  {
    assert LeadingWhitespace(x) == 0;
    assert x[0..] == x;
    assert TrailingWhitespace(x) == 0;
  }

  lemma LeadingWhitespaceSkip(a: string, x: string)
    requires forall i :: 0 <= i < |a| ==> IsKotlinWhitespace(a[i])
    requires |x| > 0 && !IsKotlinWhitespace(x[0])
    ensures LeadingWhitespace(a + x) == |a|
  {
    if |a| > 0 {
      assert (a + x)[1..] == a[1..] + x;
      LeadingWhitespaceSkip(a[1..], x);
    } else {
      assert a + x == x;
    }
  }

  lemma TrailingWhitespaceSkip(x: string, b: string)
    requires forall i :: 0 <= i < |b| ==> IsKotlinWhitespace(b[i])
    requires |x| > 0 && !IsKotlinWhitespace(x[|x| - 1])
    ensures TrailingWhitespace(x + b) == |b|
  {
    if |b| > 0 {
      assert (x + b)[..|x + b| - 1] == x + b[..|b| - 1];
      TrailingWhitespaceSkip(x, b[..|b| - 1]);
    } else {
      assert x + b == x;
    }
  }

  /** Trimming whitespace-padded text gives back exactly the padded text. */
  lemma TrimPadded(a: string, x: string, b: string)
    requires forall i :: 0 <= i < |a| ==> IsKotlinWhitespace(a[i])
    requires forall i :: 0 <= i < |b| ==> IsKotlinWhitespace(b[i])
    requires |x| > 0 && !IsKotlinWhitespace(x[0]) && !IsKotlinWhitespace(x[|x| - 1])
    ensures Trim(a + x + b) == x
  {
    LeadingWhitespaceSkip(a, x + b);
    assert a + x + b == a + (x + b);
    assert (a + x + b)[|a|..] == x + b;
    TrailingWhitespaceSkip(x, b);
    assert (x + b)[..|x + b| - |b|] == x;
  }

  // ---------------------------------------------------------------------------------------
  // Regex `\s*` and `\w+`
  // ---------------------------------------------------------------------------------------

  /** Length of the longest prefix of `s` matched by `\s*`. */
  function RegexSpaceRun(s: string): (n: nat)
    ensures n <= |s|
    ensures forall i :: 0 <= i < n ==> IsRegexSpace(s[i])
    ensures n < |s| ==> !IsRegexSpace(s[n])
  {
    if |s| > 0 && IsRegexSpace(s[0]) then 1 + RegexSpaceRun(s[1..]) else 0
  }

  /** What is left of `s` after the greedy `\s*`. */
  function SkipRegexSpaces(s: string): (r: string)
    ensures r == s[RegexSpaceRun(s)..]
  {
    s[RegexSpaceRun(s)..]
  }

  /** Length of the longest prefix of `s` matched by `\w*`. */
  function WordRun(s: string): (n: nat)
    ensures n <= |s|
    ensures forall i :: 0 <= i < n ==> IsWordChar(s[i])
    ensures n < |s| ==> !IsWordChar(s[n])
  {
    if |s| > 0 && IsWordChar(s[0]) then 1 + WordRun(s[1..]) else 0
  }

  lemma RegexSpaceRunNone(s: string)
    requires |s| > 0 && !IsRegexSpace(s[0])
    ensures SkipRegexSpaces(s) == s
  {
  }

  /** `\s*` consumes exactly a run of spaces that is followed by a non-space or the end. */
  lemma {:induction false} SkipSpaceRun(w: string, x: string)
    requires forall i :: 0 <= i < |w| ==> IsRegexSpace(w[i])
    requires |x| == 0 || !IsRegexSpace(x[0])
    ensures RegexSpaceRun(w + x) == |w|
    ensures SkipRegexSpaces(w + x) == x
    decreases |w|
  {
    if |w| > 0 {
      assert (w + x)[1..] == w[1..] + x;
      SkipSpaceRun(w[1..], x);
    } else {
      assert w + x == x;
    }
    assert (w + x)[|w|..] == x;
  }

  lemma WordRunPrefix(w: string, x: string)
    requires forall i :: 0 <= i < |w| ==> IsWordChar(w[i])
    requires |x| > 0 && !IsWordChar(x[0])
    ensures WordRun(w + x) == |w|
  {
    if |w| > 0 {
      assert (w + x)[1..] == w[1..] + x;
      WordRunPrefix(w[1..], x);
    } else {
      assert w + x == x;
    }
  }

  // ---------------------------------------------------------------------------------------
  // indexOf / lastIndexOf
  // ---------------------------------------------------------------------------------------

  predicate OccursAt(s: string, sub: string, j: nat) {
    j + |sub| <= |s| && s[j..j + |sub|] == sub
  }

  /** Java's `s.indexOf(sub, from)`: the first occurrence of `sub` at or after `from`. */
  function IndexOf(s: string, sub: string, from: nat): (r: Option<nat>)
    ensures r.Some? ==> from <= r.value && OccursAt(s, sub, r.value)
    ensures r.Some? ==> forall j :: from <= j < r.value ==> !OccursAt(s, sub, j)
    ensures r.None? ==> forall j :: from <= j ==> !OccursAt(s, sub, j)
    decreases |s| - from
  {
    if from + |sub| > |s| then None
    else if s[from..from + |sub|] == sub then Some(from)
    else IndexOf(s, sub, from + 1)
  }

  /** Java's `s.indexOf(c, from)` for a single character. */
  function IndexOfChar(s: string, c: char, from: nat): (r: Option<nat>)
    ensures r.Some? ==> from <= r.value < |s| && s[r.value] == c
    ensures r.Some? ==> forall j :: from <= j < r.value ==> s[j] != c
    ensures r.None? ==> forall j :: from <= j < |s| ==> s[j] != c
    decreases |s| - from
  {
    if from >= |s| then None
    else if s[from] == c then Some(from)
    else IndexOfChar(s, c, from + 1)
  }

  /** Java's `s.lastIndexOf(c)`. */
  function LastIndexOfChar(s: string, c: char): (r: Option<nat>)
    ensures r.Some? ==> r.value < |s| && s[r.value] == c
    ensures r.Some? ==> forall j :: r.value < j < |s| ==> s[j] != c
    ensures r.None? ==> forall j :: 0 <= j < |s| ==> s[j] != c
  {
    if |s| == 0 then None
    else if s[|s| - 1] == c then Some(|s| - 1)
    else LastIndexOfChar(s[..|s| - 1], c)
  }

  // ---------------------------------------------------------------------------------------
  // split, removeSurrounding, filter
  // ---------------------------------------------------------------------------------------

  /** Kotlin's `s.split(d)` for a one-character delimiter; empty pieces are kept. */
  function Split(s: string, d: char): (parts: seq<string>)
    ensures |parts| >= 1
    ensures forall k :: 0 <= k < |parts| ==> Avoids(parts[k], {d})
    decreases |s|
  {
    match IndexOfChar(s, d, 0)
    case None => [s]
    case Some(i) => [s[..i]] + Split(s[i + 1..], d)
  }

  /** The pieces glued back together with the delimiter between them. */
  function Join(parts: seq<string>, d: char): string
    requires |parts| >= 1
  {
    if |parts| == 1 then parts[0] else parts[0] + [d] + Join(parts[1..], d)
  }

  /** Splitting loses nothing: gluing the pieces back gives the original text. */
  lemma {:induction false} SplitJoin(s: string, d: char)
    ensures Join(Split(s, d), d) == s
    decreases |s|
  {
    match IndexOfChar(s, d, 0)
    case None =>
    case Some(i) =>
      var tail := Split(s[i + 1..], d);
      SplitJoin(s[i + 1..], d);
      JoinCons(s[..i], tail, d);
      assert s == s[..i] + [d] + s[i + 1..];
  }

  /** Joining a piece in front of other pieces puts the delimiter between them. */
  lemma JoinCons(a: string, parts: seq<string>, d: char)
    requires |parts| >= 1
    ensures Join([a] + parts, d) == a + [d] + Join(parts, d)
  {
    assert ([a] + parts)[1..] == parts;
  }

  lemma SplitAvoiding(s: string, d: char)
    requires Avoids(s, {d})
    ensures Split(s, d) == [s]
  {
  }

  lemma SplitAt(a: string, d: char, b: string)
    requires Avoids(a, {d})
    ensures Split(a + [d] + b, d) == [a] + Split(b, d)
  {
    var s := a + [d] + b;
    assert s[|a|] == d;
    assert forall j :: 0 <= j < |a| ==> s[j] == a[j];
    assert IndexOfChar(s, d, 0) == Some(|a|);
    assert s[..|a|] == a;
    assert s[|a| + 1..] == b;
  }

  /** Kotlin's `s.removeSurrounding(d)` for a one-character delimiter. */
  function RemoveSurrounding(s: string, d: char): (r: string)
    ensures |s| >= 2 && s[0] == d && s[|s| - 1] == d ==> s == [d] + r + [d]
    ensures !(|s| >= 2 && s[0] == d && s[|s| - 1] == d) ==> r == s
  {
    if |s| >= 2 && s[0] == d && s[|s| - 1] == d then s[1..|s| - 1] else s
  }

  /** Kotlin's filter that keeps the non-empty strings, in order. */
  function KeepNonEmpty(ss: seq<string>): (r: seq<string>)
    ensures forall k :: 0 <= k < |r| ==> |r[k]| > 0
    ensures |r| <= |ss|
  {
    if |ss| == 0 then []
    else if |ss[0]| == 0 then KeepNonEmpty(ss[1..])
    else [ss[0]] + KeepNonEmpty(ss[1..])
  }

  /** The filter keeps exactly the non-empty elements. */
  lemma {:induction false} KeepNonEmptyMembers(ss: seq<string>)
    ensures forall x :: x in KeepNonEmpty(ss) <==> x in ss && |x| > 0
  {
    if |ss| > 0 {
      KeepNonEmptyMembers(ss[1..]);
      assert forall x :: x in ss <==> x == ss[0] || x in ss[1..];
    }
  }

  /**
   * The filter works element by element: on a concatenation it is the concatenation of the
   * filtered parts, and (`KeepNonEmptySingle`) a single element is kept exactly when it is
   * non-empty. Together these fix the order and the number of copies of every kept element.
   */
  lemma {:induction false} KeepNonEmptyConcat(a: seq<string>, b: seq<string>)
    ensures KeepNonEmpty(a + b) == KeepNonEmpty(a) + KeepNonEmpty(b)
    decreases |a|
  {
    if |a| == 0 {
      assert a + b == b;
    } else {
      var ab := a + b;
      assert ab[0] == a[0];
      assert ab[1..] == a[1..] + b;
      KeepNonEmptyConcat(a[1..], b);
    }
  }

  lemma KeepNonEmptySingle(x: string)
    ensures KeepNonEmpty([x]) == if |x| == 0 then [] else [x]
  {
    assert [x][1..] == [];
  }

  /** The filter keeps every element of a list that has no empty element, in order. */
  lemma {:induction false} KeepNonEmptyKeepsAll(ss: seq<string>)
    requires forall k :: 0 <= k < |ss| ==> |ss[k]| > 0
    ensures KeepNonEmpty(ss) == ss
  {
    if |ss| > 0 {
      KeepNonEmptyKeepsAll(ss[1..]);
    }
  }
}
