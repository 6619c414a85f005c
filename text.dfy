/**
 * The JavaScript string operations the handlers rely on:
 * `String.prototype.trim`, `startsWith` and `replace` with a string pattern.
 */
module Text {

  /** ECMAScript WhiteSpace and LineTerminator code points: the characters
      `trim` removes. Tab through carriage return and the space below 0x80,
      and twelve code points or ranges above it. */
  predicate IsWhitespace(c: char) {
    if c < '\U{0080}' then ('\t' <= c <= '\r') || c == ' '
    else c == '\U{00A0}' || c == '\U{1680}' || ('\U{2000}' <= c <= '\U{200A}') ||
         ('\U{2028}' <= c <= '\U{2029}') || c == '\U{202F}' || c == '\U{205F}' ||
         c == '\U{3000}' || c == '\U{FEFF}'
  }

  predicate AllWhitespace(s: string) {
    forall i :: 0 <= i < |s| ==> IsWhitespace(s[i])
  }

  /** Scanning forward from `i`: the index of the first character that is
      not whitespace, or `|s|` when there is none. */
  function SkipForward(s: string, i: nat): (j: nat)
    requires i <= |s|
    ensures i <= j <= |s|
    ensures forall k :: i <= k < j ==> IsWhitespace(s[k])
    ensures j < |s| ==> !IsWhitespace(s[j])
    decreases |s| - i
  {
    if i < |s| && IsWhitespace(s[i]) then SkipForward(s, i + 1) else i
  }

  /** Scanning backward from `j` but not below `lo`: the index just past the
      last character that is not whitespace, or `lo` when there is none. */
  function SkipBackward(s: string, lo: nat, j: nat): (k: nat)
    requires lo <= j <= |s|
    ensures lo <= k <= j
    ensures forall m :: k <= m < j ==> IsWhitespace(s[m])
    ensures k > lo ==> !IsWhitespace(s[k - 1])
    decreases j
  {
    if j > lo && IsWhitespace(s[j - 1]) then SkipBackward(s, lo, j - 1) else j
  }

  /** A non-empty string with no whitespace at either end. */
  predicate Unpadded(s: string) {
    s != [] && !IsWhitespace(s[0]) && !IsWhitespace(s[|s| - 1])
  }

  /** `s.trim()`: `s` without its leading and trailing whitespace. */
  function Trim(s: string): (r: string)
    ensures |r| <= |s|
    ensures r == [] || Unpadded(r)
  {
    var a := SkipForward(s, 0);
    var b := SkipBackward(s, a, |s|);
    s[a..b]
  }

  /** What `trim` promises: the result is the infix of `s` left between two
      all-whitespace margins, the first of them the leading whitespace. */
  lemma TrimCharacterization(s: string)
    ensures var i := SkipForward(s, 0);
            && i + |Trim(s)| <= |s| && Trim(s) == s[i..i + |Trim(s)|]
            && AllWhitespace(s[..i]) && AllWhitespace(s[i + |Trim(s)|..])
  {
    var a := SkipForward(s, 0);
    var b := SkipBackward(s, a, |s|);
    assert Trim(s) == s[a..b];
    assert forall k :: 0 <= k < |s[b..]| ==> s[b..][k] == s[b + k];
  }

  /** A string trims to nothing exactly when it is all whitespace. */
  lemma TrimEmptyIffAllWhitespace(s: string)
    ensures Trim(s) == [] <==> AllWhitespace(s)
  {
    var a := SkipForward(s, 0);
    var b := SkipBackward(s, a, |s|);
    assert Trim(s) == s[a..b];
    if a < |s| {
      assert !IsWhitespace(s[a]);
    }
  }

  /** The handlers' `!x || !x.trim()` test on an optional string: it holds
      exactly for the strings made of whitespace only. */
  function Blank(s: string): (b: bool)
    ensures b <==> AllWhitespace(s)
  {
    TrimEmptyIffAllWhitespace(s);
    Trim(s) == []
  }

  /** A string with no whitespace at either end trims to itself. */
  lemma TrimUnpadded(s: string)
    requires Unpadded(s)
    ensures Trim(s) == s
  {
    assert SkipForward(s, 0) == 0;
    assert SkipBackward(s, 0, |s|) == |s|;
    assert s[0..|s|] == s;
  }

  /** Trimming twice is trimming once, so the schema's own `trim: true`
      leaves an already trimmed title as it is. */
  lemma {:induction false} TrimIdempotent(s: string)
    ensures Trim(Trim(s)) == Trim(s)
  {
    var r := Trim(s);
    if r != [] {
      TrimUnpadded(r);
    } else {
      assert SkipForward(r, 0) == 0;
    }
  }

  /** `s.startsWith(prefix)`: `s` is `prefix` followed by the rest of `s`. */
  function StartsWith(s: string, prefix: string): (b: bool)
    ensures b <==> |prefix| <= |s| && s == prefix + s[|prefix|..]
  {
    |prefix| <= |s| && s[..|prefix|] == prefix
  }

  /** No occurrence of `pattern` in `s` starts before index `i`. */
  predicate NoEarlierOccurrence(s: string, pattern: string, i: nat)
    requires i <= |s|
  {
    forall j :: 0 <= j < i ==> !StartsWith(s[j..], pattern)
  }

  /** `r` is `s` with the first occurrence of `pattern`, the one at the
      lowest index, replaced by `replacement`. */
  ghost predicate ReplacedFirst(s: string, pattern: string, replacement: string, r: string) {
    forall i :: 0 <= i <= |s| && StartsWith(s[i..], pattern) && NoEarlierOccurrence(s, pattern, i)
                ==> r == s[..i] + replacement + s[i + |pattern|..]
  }

  /** `s.replace(pattern, replacement)` with a string pattern and a
      replacement free of `$` substitution patterns: only the first
      occurrence is replaced; without an occurrence `s` is returned. */
  function ReplaceFirst(s: string, pattern: string, replacement: string): (r: string)
    ensures ReplacedFirst(s, pattern, replacement, r)
    decreases |s|
  {
    if StartsWith(s, pattern) then
      assert s[0..] == s;
      replacement + s[|pattern|..]
    else if s == [] then s
    else
      var rest := ReplaceFirst(s[1..], pattern, replacement);
      ReplaceFirstStep(s, pattern, replacement, rest);
      [s[0]] + rest
  }

  /** An occurrence in `s` past its first character is an occurrence in
      `s[1..]`, one index lower, so the replacement in the tail carries over. */
  lemma ReplaceFirstStep(s: string, pattern: string, replacement: string, rest: string)
    requires s != [] && !StartsWith(s, pattern)
    requires ReplacedFirst(s[1..], pattern, replacement, rest)
    ensures ReplacedFirst(s, pattern, replacement, [s[0]] + rest)
  {
    forall i | 0 <= i <= |s| && StartsWith(s[i..], pattern) && NoEarlierOccurrence(s, pattern, i)
      ensures [s[0]] + rest == s[..i] + replacement + s[i + |pattern|..]
    {
      assert s[0..] == s;
      ShiftOccurrence(s, pattern, i);
      PrependReplaced(s, replacement, rest, i, |pattern|);
    }
  }

  /** Putting the first character back in front of the tail's replacement. */
  lemma PrependReplaced(s: string, replacement: string, rest: string, i: nat, n: nat)
    requires 0 < i && i + n <= |s|
    requires rest == s[1..][..i - 1] + replacement + s[1..][i - 1 + n..]
    ensures [s[0]] + rest == s[..i] + replacement + s[i + n..]
  {
    assert s[..i] == [s[0]] + s[1..][..i - 1];
    assert s[1..][i - 1 + n..] == s[i + n..];
  }

  /** The first occurrence at index `i > 0` of `s` is the first occurrence
      at index `i - 1` of `s[1..]`. */
  lemma ShiftOccurrence(s: string, pattern: string, i: nat)
    requires 0 < i <= |s| && StartsWith(s[i..], pattern) && NoEarlierOccurrence(s, pattern, i)
    ensures StartsWith(s[1..][i - 1..], pattern) && NoEarlierOccurrence(s[1..], pattern, i - 1)
  {
    assert s[1..][i - 1..] == s[i..];
    forall j | 0 <= j < i - 1 ensures !StartsWith(s[1..][j..], pattern) {
      assert s[1..][j..] == s[j + 1..];
    }
  }

  /** The first occurrence of a pattern that `s` starts with is at index 0, so
      replacing it by nothing strips exactly that prefix. */
  lemma ReplacePrefix(s: string, prefix: string)
    requires StartsWith(s, prefix)
    ensures ReplaceFirst(s, prefix, "") == s[|prefix|..]
    ensures prefix + ReplaceFirst(s, prefix, "") == s
  {
    assert s == s[..|prefix|] + s[|prefix|..];
  }

  /** Without an occurrence, `replace` changes nothing. */
  lemma {:induction false} ReplaceAbsent(s: string, pattern: string, replacement: string)
    requires forall i :: 0 <= i <= |s| ==> !StartsWith(s[i..], pattern)
    ensures ReplaceFirst(s, pattern, replacement) == s
    decreases |s|
  {
    assert s[0..] == s;
    if s != [] {
      forall i | 0 <= i <= |s| - 1 ensures !StartsWith(s[1..][i..], pattern) {
        assert s[1..][i..] == s[i + 1..];
      }
      ReplaceAbsent(s[1..], pattern, replacement);
      assert [s[0]] + s[1..] == s;
    }
  }
}
