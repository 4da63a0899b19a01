/**
 * The parts of .NET's System.String that the HTML generator relies on:
 * a reference-typed string that may be null, string.IsNullOrWhiteSpace,
 * ordinal String.StartsWith, ordinal String.Replace and String.ToLower.
 */
module DotNet {

  /** A .NET string reference: either null or a sequence of characters. */
  datatype NString = Null | Str(value: string)

  /** char.IsWhiteSpace: the Unicode space separators, line and paragraph
      separators, and the control characters U+0009..U+000D and U+0085. */
  predicate IsWhiteSpace(c: char) {
    || c == ' '
    || ('\t' <= c <= '\r')
    || c == '\U{0085}'
    || c == '\U{00A0}'
    || c == '\U{1680}'
    || ('\U{2000}' <= c <= '\U{200A}')
    || c == '\U{2028}'
    || c == '\U{2029}'
    || c == '\U{202F}'
    || c == '\U{205F}'
    || c == '\U{3000}'
  }

  /** String.TrimStart(): the text from the first non-white-space
      character on. */
  function TrimStart(s: string): (r: string)
    ensures r == [] <==> forall i :: 0 <= i < |s| ==> IsWhiteSpace(s[i])
    ensures r != [] ==> !IsWhiteSpace(r[0])
  {
    if s == [] then []
    else if IsWhiteSpace(s[0]) then TrimStart(s[1..])
    else s
  }

  /** TrimStart only drops a prefix, all of it white space: what is left is
      a suffix of the text. */
  lemma {:induction false} TrimStartIsSuffix(s: string)
    ensures |TrimStart(s)| <= |s| && TrimStart(s) == s[|s| - |TrimStart(s)|..]
    ensures forall i :: 0 <= i < |s| - |TrimStart(s)| ==> IsWhiteSpace(s[i])
  {
    if s != [] && IsWhiteSpace(s[0]) {
      TrimStartIsSuffix(s[1..]);
      assert s[1..][|s[1..]| - |TrimStart(s[1..])|..] == s[|s| - |TrimStart(s)|..];
    }
  }

  /** string.IsNullOrWhiteSpace: null, or nothing but white space. */
  predicate IsNullOrWhiteSpace(s: NString): (b: bool)
    ensures b <==> s.Null? || TrimStart(s.value) == []
  {
    s.Null? || forall i :: 0 <= i < |s.value| ==> IsWhiteSpace(s.value[i])
  }

  /** Ordinal String.StartsWith: `s` is `prefix` followed by something. */
  predicate StartsWith(s: string, prefix: string): (b: bool)
    ensures b <==> exists rest :: s == prefix + rest
  {
    if |prefix| <= |s| && s[..|prefix|] == prefix then
      assert s == prefix + s[|prefix|..];
      true
    else
      false
  }

  /** `c` does not occur in `s`. */
  predicate Excludes(s: string, c: char) {
    forall i :: 0 <= i < |s| ==> s[i] != c
  }

  /** String.Replace(pattern, replacement) with ordinal comparison: the
      occurrences of `pattern` are found from left to right, without
      overlapping, and each is replaced; the scan resumes after the
      inserted text's source span, so the replacement itself is never
      rescanned. .NET refuses an empty pattern. */
  function Replace(s: string, pattern: string, replacement: string): (r: string)
    requires pattern != []
    ensures Excludes(s, pattern[0]) ==> r == s
    ensures pattern == replacement ==> r == s
    decreases |s|
  {
    if |s| < |pattern| then s
    else if s[..|pattern|] == pattern then
      var rest := Replace(s[|pattern|..], pattern, replacement);
      assert pattern == replacement ==> replacement + rest == s[..|pattern|] + s[|pattern|..];
      replacement + rest
    else
      var rest := Replace(s[1..], pattern, replacement);
      assert Excludes(s, pattern[0]) ==> Excludes(s[1..], pattern[0]);
      assert Excludes(s, pattern[0]) || pattern == replacement ==> [s[0]] + rest == s;
      [s[0]] + rest
  }

  /** Text that cannot start an occurrence of the pattern passes through
      Replace unchanged. */
  lemma {:induction false} ReplaceKeepsPrefix(a: string, b: string, pattern: string, replacement: string)
    requires pattern != []
    requires Excludes(a, pattern[0])
    ensures Replace(a + b, pattern, replacement) == a + Replace(b, pattern, replacement)
    decreases |a|
  {
    if a == [] {
      assert a + b == b;
    } else {
      var s := a + b;
      assert s[0] == a[0];
      assert s[1..] == a[1..] + b;
      ReplaceKeepsPrefix(a[1..], b, pattern, replacement);
      assert a == [a[0]] + a[1..];
    }
  }

  /** Where the pattern does not start, Replace keeps one character and
      scans on from the next one. */
  lemma ReplaceSkipsChar(s: string, pattern: string, replacement: string)
    requires pattern != [] && s != []
    requires !StartsWith(s, pattern)
    ensures Replace(s, pattern, replacement) == [s[0]] + Replace(s[1..], pattern, replacement)
  {
  }

  /** A token that differs from the pattern at position k, and contains
      the pattern's first character only at its start, passes through
      Replace unchanged. */
  lemma ReplaceSkipsToken(token: string, rest: string, pattern: string, replacement: string, k: nat)
    requires pattern != []
    requires k < |token| && k < |pattern| && token[k] != pattern[k]
    requires Excludes(token[1..], pattern[0])
    ensures Replace(token + rest, pattern, replacement) == token + Replace(rest, pattern, replacement)
  {
    var s := token + rest;
    assert !StartsWith(s, pattern) by {
      if |pattern| <= |s| {
        assert s[..|pattern|][k] == token[k];
      }
    }
    calc {
      Replace(s, pattern, replacement);
      == { ReplaceSkipsChar(s, pattern, replacement); }
      [s[0]] + Replace(s[1..], pattern, replacement);
      == { assert s[1..] == token[1..] + rest; }
      [token[0]] + Replace(token[1..] + rest, pattern, replacement);
      == { ReplaceKeepsPrefix(token[1..], rest, pattern, replacement); }
      [token[0]] + (token[1..] + Replace(rest, pattern, replacement));
      == { assert token == [token[0]] + token[1..]; }
      token + Replace(rest, pattern, replacement);
    }
  }

  /** An occurrence at the start is replaced and the scan resumes after it. */
  lemma ReplaceAtStart(pattern: string, rest: string, replacement: string)
    requires pattern != []
    ensures Replace(pattern + rest, pattern, replacement) == replacement + Replace(rest, pattern, replacement)
  {
  }

  /** The parts with `sep` between each two neighbours. */
  function Join(parts: seq<string>, sep: string): string
    decreases |parts|
  {
    if |parts| == 0 then []
    else if |parts| == 1 then parts[0]
    else parts[0] + sep + Join(parts[1..], sep)
  }

  /** Every occurrence of the pattern is replaced: text cut at the
      occurrences of the pattern, into parts that cannot start one, comes
      out with the replacement between the same parts. */
  lemma {:induction false} ReplaceEveryOccurrence(parts: seq<string>, pattern: string, replacement: string)
    requires pattern != []
    requires forall i :: 0 <= i < |parts| ==> Excludes(parts[i], pattern[0])
    ensures Replace(Join(parts, pattern), pattern, replacement) == Join(parts, replacement)
    decreases |parts|
  {
    if |parts| >= 2 {
      var head, tail := parts[0], Join(parts[1..], pattern);
      calc {
        Replace(Join(parts, pattern), pattern, replacement);
        == { assert Join(parts, pattern) == head + (pattern + tail); }
        Replace(head + (pattern + tail), pattern, replacement);
        == { ReplaceKeepsPrefix(head, pattern + tail, pattern, replacement); }
        head + Replace(pattern + tail, pattern, replacement);
        == { ReplaceAtStart(pattern, tail, replacement); }
        head + (replacement + Replace(tail, pattern, replacement));
        == { ReplaceEveryOccurrence(parts[1..], pattern, replacement); }
        head + (replacement + Join(parts[1..], replacement));
      }
    }
  }

  /** The upper-case letters whose lower-case form ToLower produces: the
      Basic Latin A..Z and the Latin-1 Supplement letters U+00C0..U+00DE
      other than the multiplication sign U+00D7. */
  predicate IsUpper(c: char) {
    ('A' <= c <= 'Z') || ('\U{00C0}' <= c <= '\U{00DE}' && c != '\U{00D7}')
  }

  /** char.ToLower on the letters IsUpper names; every other character is
      left as it is. */
  function ToLowerChar(c: char): (d: char)
    ensures !IsUpper(d)
    ensures !IsUpper(c) ==> d == c
  {
    if IsUpper(c) then (c as int + 32) as char else c
  }

  /** No character of `s` is an upper-case letter. */
  predicate NoUpper(s: string) {
    forall i :: 0 <= i < |s| ==> !IsUpper(s[i])
  }

  /** String.ToLower: each character is mapped by ToLowerChar. */
  function ToLower(s: string): (r: string)
    ensures |r| == |s|
  {
    if s == [] then [] else [ToLowerChar(s[0])] + ToLower(s[1..])
  }

  /** Position by position, ToLower is ToLowerChar. */
  lemma {:induction false} ToLowerAt(s: string, i: nat)
    requires i < |s|
    ensures ToLower(s)[i] == ToLowerChar(s[i])
  {
    if i > 0 {
      ToLowerAt(s[1..], i - 1);
    }
  }

  /** ToLower leaves no upper-case letter behind. */
  lemma {:induction false} ToLowerHasNoUpper(s: string)
    ensures NoUpper(ToLower(s))
  {
    forall i | 0 <= i < |s|
      ensures !IsUpper(ToLower(s)[i])
    {
      ToLowerAt(s, i);
    }
  }

  /** A string without upper-case letters is its own lower-case form. */
  lemma {:induction false} ToLowerKeepsLower(s: string)
    requires NoUpper(s)
    ensures ToLower(s) == s
  {
    if s != [] {
      assert !IsUpper(s[0]);
      ToLowerKeepsLower(s[1..]);
    }
  }

  /** Lower-casing twice is lower-casing once. */
  lemma {:induction false} ToLowerIdempotent(s: string)
    ensures ToLower(ToLower(s)) == ToLower(s)
  {
    ToLowerHasNoUpper(s);
    ToLowerKeepsLower(ToLower(s));
  }
}
