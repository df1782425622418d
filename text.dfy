/**
 * The string operations of the Python standard library that the front end
 * relies on, stated over `seq<char>`: `str.split()` with no argument,
 * `str(int)`, `str.endswith`, `str.lower` and `str.replace`.
 */
module Text {
  import opened Wrappers

  // ---------------------------------------------------------------------------
  // Whitespace splitting (`str.split()` with no argument)
  // ---------------------------------------------------------------------------

  /** The characters `str.isspace()` accepts, which are the separators of `str.split()`. */
  predicate IsSpace(c: char) {
    || c == ' '
    || ('\t' <= c <= '\r')
    || ('\U{1C}' <= c <= '\U{1F}')
    || c == '\U{85}' || c == '\U{A0}' || c == '\U{1680}'
    || ('\U{2000}' <= c <= '\U{200A}')
    || c == '\U{2028}' || c == '\U{2029}' || c == '\U{202F}' || c == '\U{205F}' || c == '\U{3000}'
  }

  /** A piece that `str.split()` can produce: non-empty, without whitespace. */
  predicate IsToken(w: string) {
    w != [] && forall i :: 0 <= i < |w| ==> !IsSpace(w[i])
  }

  /** The length of the longest whitespace-free prefix of `s`. */
  function WordLength(s: string): (n: nat)
    ensures n <= |s|
    ensures forall i :: 0 <= i < n ==> !IsSpace(s[i])
    ensures n == |s| || IsSpace(s[n])
  {
    if s == [] || IsSpace(s[0]) then 0 else 1 + WordLength(s[1..])
  }

  /** Python's `s.split()`: the maximal runs of non-whitespace characters, left to right. */
  function Split(s: string): seq<string>
    decreases |s|
  {
    if s == [] then []
    else if IsSpace(s[0]) then Split(s[1..])
    else
      var n := WordLength(s);
      [s[..n]] + Split(s[n..])
  }

  /** Every piece `str.split()` produces is non-empty and free of whitespace. */
  lemma {:induction false} SplitTokens(s: string)
    ensures forall k :: 0 <= k < |Split(s)| ==> IsToken(Split(s)[k])
    decreases |s|
  {
    if s != [] && IsSpace(s[0]) {
      SplitTokens(s[1..]);
    } else if s != [] {
      var n := WordLength(s);
      SplitTokens(s[n..]);
      assert IsToken(s[..n]);
      assert Split(s) == [s[..n]] + Split(s[n..]);
    }
  }

  /** The tokens separated by single blanks (Python's `" ".join(ws)`). */
  function Join(ws: seq<string>): string {
    if |ws| == 0 then ""
    else if |ws| == 1 then ws[0]
    else ws[0] + " " + Join(ws[1..])
  }

  /** The tokens glued together without separators. */
  function Concat(ws: seq<string>): string {
    if ws == [] then "" else ws[0] + Concat(ws[1..])
  }

  /** `s` with every whitespace character removed. */
  function RemoveSpaces(s: string): string {
    if s == [] then ""
    else (if IsSpace(s[0]) then "" else [s[0]]) + RemoveSpaces(s[1..])
  }

  lemma SplitSkipsSpace(c: char, s: string)
    requires IsSpace(c)
    ensures Split([c] + s) == Split(s)
  {
    assert ([c] + s)[0] == c && ([c] + s)[1..] == s;
  }

  lemma {:induction false} WordLengthOfToken(w: string, x: string)
    requires IsToken(w)
    requires x == [] || IsSpace(x[0])
    ensures WordLength(w + x) == |w|
    decreases |w|
  {
    assert (w + x)[0] == w[0];
    if |w| > 1 {
      assert (w + x)[1..] == w[1..] + x;
      assert IsToken(w[1..]) by {
        forall i | 0 <= i < |w[1..]| ensures !IsSpace(w[1..][i]) {
          assert w[1..][i] == w[i + 1];
        }
      }
      WordLengthOfToken(w[1..], x);
    } else {
      assert (w + x)[1..] == x;
    }
  }

  /** A token followed by whitespace (or nothing) is split off as one piece. */
  lemma SplitToken(w: string, x: string)
    requires IsToken(w)
    requires x == [] || IsSpace(x[0])
    ensures Split(w + x) == [w] + Split(x)
  {
    assert (w + x)[0] == w[0];
    WordLengthOfToken(w, x);
    assert (w + x)[..|w|] == w;
    assert (w + x)[|w|..] == x;
  }

  /** Splitting undoes joining with blanks: `" ".join(ws).split() == ws` for tokens `ws`. */
  lemma {:induction false} SplitJoin(ws: seq<string>)
    requires forall k :: 0 <= k < |ws| ==> IsToken(ws[k])
    ensures Split(Join(ws)) == ws
  {
    if |ws| == 1 {
      SplitToken(ws[0], "");
      assert ws[0] + "" == ws[0];
    } else if |ws| > 1 {
      var first, others := ws[0], ws[1..];
      var rest := Join(others);
      var tail := [' '] + rest;
      assert Join(ws) == first + tail;
      assert IsToken(first);
      assert forall k :: 0 <= k < |others| ==> others[k] == ws[k + 1];
      SplitToken(first, tail);
      SplitSkipsSpace(' ', rest);
      SplitJoin(others);
      assert [first] + others == ws;
    }
  }

  lemma {:induction false} RemoveSpacesAppend(a: string, b: string)
    ensures RemoveSpaces(a + b) == RemoveSpaces(a) + RemoveSpaces(b)
  {
    if a != [] {
      assert (a + b)[0] == a[0];
      assert (a + b)[1..] == a[1..] + b;
      RemoveSpacesAppend(a[1..], b);
    } else {
      assert a + b == b;
    }
  }

  lemma {:induction false} RemoveSpacesOfWord(w: string)
    requires forall i :: 0 <= i < |w| ==> !IsSpace(w[i])
    ensures RemoveSpaces(w) == w
  {
    if w != [] {
      RemoveSpacesOfWord(w[1..]);
    }
  }

  /**
   * Splitting keeps every non-whitespace character, in order: the tokens,
   * glued back together, are the input with its whitespace removed.
   */
  lemma {:induction false} SplitKeepsCharacters(s: string)
    ensures Concat(Split(s)) == RemoveSpaces(s)
    decreases |s|
  {
    if s != [] && IsSpace(s[0]) {
      SplitKeepsCharacters(s[1..]);
    } else if s != [] {
      var n := WordLength(s);
      assert s == s[..n] + s[n..];
      RemoveSpacesAppend(s[..n], s[n..]);
      RemoveSpacesOfWord(s[..n]);
      SplitKeepsCharacters(s[n..]);
      var r := [s[..n]] + Split(s[n..]);
      assert r[1..] == Split(s[n..]);
    }
  }

  /** The example of a two-option extra-arguments string. */
  lemma SplitExample()
    ensures Split("-foo bar") == ["-foo", "bar"]
  {
    assert IsToken("-foo") && IsToken("bar");
    assert "-foo bar" == "-foo" + ([' '] + "bar");
    SplitToken("-foo", [' '] + "bar");
    SplitSkipsSpace(' ', "bar");
    assert "bar" == "bar" + "";
    SplitToken("bar", "");
  }

  // ---------------------------------------------------------------------------
  // Decimal rendering (`str(int)`)
  // ---------------------------------------------------------------------------

  predicate IsDigit(c: char) {
    '0' <= c <= '9'
  }

  predicate AllDigits(s: string) {
    forall i :: 0 <= i < |s| ==> IsDigit(s[i])
  }

  function DigitValue(c: char): nat
    requires IsDigit(c)
  {
    c as nat - '0' as nat
  }

  function DigitChar(d: nat): (c: char)
    requires d < 10
    ensures IsDigit(c) && DigitValue(c) == d
  {
    ('0' as nat + d) as char
  }

  /** The decimal digits of `n`, most significant first, without leading zeros. */
  function NatToString(n: nat): (s: string)
    ensures |s| >= 1 && AllDigits(s)
    ensures (s[0] == '0') == (n == 0)
  {
    if n < 10 then [DigitChar(n)] else NatToString(n / 10) + [DigitChar(n % 10)]
  }

  /** Python's `str(i)` for an integer: a minus sign for negative values, then the digits. */
  function IntToString(i: int): string {
    if i < 0 then "-" + NatToString(-i) else NatToString(i)
  }

  /** The number a string of decimal digits denotes. */
  function DigitsValue(s: string): nat
    requires AllDigits(s)
  {
    if s == [] then 0 else 10 * DigitsValue(s[..|s| - 1]) + DigitValue(s[|s| - 1])
  }

  /** Reads an optional minus sign followed by at least one decimal digit. */
  function ParseInt(s: string): Option<int> {
    if |s| >= 2 && s[0] == '-' && AllDigits(s[1..]) then Some(-(DigitsValue(s[1..]) as int))
    else if |s| >= 1 && AllDigits(s) then Some(DigitsValue(s))
    else None
  }

  lemma {:induction false} NatToStringValue(n: nat)
    ensures DigitsValue(NatToString(n)) == n
  {
    if n >= 10 {
      var s := NatToString(n);
      assert s[..|s| - 1] == NatToString(n / 10);
      NatToStringValue(n / 10);
    }
  }

  /** Decimal rendering loses nothing: the rendered integer reads back as itself. */
  lemma IntToStringRoundTrip(i: int)
    ensures ParseInt(IntToString(i)) == Some(i)
  {
    var s := IntToString(i);
    if i < 0 {
      var digits := NatToString(-i);
      assert s == "-" + digits && s[1..] == digits;
      NatToStringValue(-i);
      assert ParseInt(s) == Some(-(DigitsValue(digits) as int));
    } else {
      assert s == NatToString(i);
      assert IsDigit(s[0]);
      NatToStringValue(i);
      assert ParseInt(s) == Some(DigitsValue(s) as int);
    }
  }

  /** Different integers render differently, so the argument vector determines a number. */
  lemma IntToStringInjective(i: int, j: int)
    requires IntToString(i) == IntToString(j)
    ensures i == j
  {
    IntToStringRoundTrip(i);
    IntToStringRoundTrip(j);
  }

  // ---------------------------------------------------------------------------
  // Suffixes, case and replacement
  // ---------------------------------------------------------------------------

  /** Python's `s.startswith(prefix)`. */
  predicate StartsWith(s: string, prefix: string) {
    |prefix| <= |s| && s[..|prefix|] == prefix
  }

  /** Python's `s.endswith(suffix)`. */
  predicate EndsWith(s: string, suffix: string) {
    |suffix| <= |s| && s[|s| - |suffix|..] == suffix
  }

  function LowerChar(c: char): char {
    if 'A' <= c <= 'Z' then (c as int + 32) as char else c
  }

  /** Python's `s.lower()`, restricted to the letters A to Z. */
  function Lower(s: string): (r: string)
    ensures |r| == |s|
    ensures forall i :: 0 <= i < |s| ==> r[i] == LowerChar(s[i])
  {
    seq(|s|, i requires 0 <= i < |s| => LowerChar(s[i]))
  }

  /** Whether `pattern` occurs in `s` starting at index `i`. */
  predicate OccursAt(pattern: string, s: string, i: nat) {
    i + |pattern| <= |s| && s[i..i + |pattern|] == pattern
  }

  /** Python's `pattern in s` for strings. */
  predicate Contains(s: string, pattern: string) {
    exists i: nat :: i <= |s| && OccursAt(pattern, s, i)
  }

  /** Whether `pattern` starts at no position of `s`. */
  predicate Absent(pattern: string, s: string) {
    forall i: nat :: i < |s| ==> !OccursAt(pattern, s, i)
  }

  /**
   * Python's `s.replace(pattern, replacement)` for a non-empty pattern:
   * every occurrence, scanned left to right without overlap, is replaced.
   */
  function Replace(s: string, pattern: string, replacement: string): string
    requires |pattern| > 0
    decreases |s|
  {
    if |s| < |pattern| then s
    else if s[..|pattern|] == pattern then replacement + Replace(s[|pattern|..], pattern, replacement)
    else [s[0]] + Replace(s[1..], pattern, replacement)
  }

  /** Without an occurrence of the pattern, replacement changes nothing. */
  lemma {:induction false} ReplaceAbsent(s: string, pattern: string, replacement: string)
    requires |pattern| > 0 && Absent(pattern, s)
    ensures Replace(s, pattern, replacement) == s
    decreases |s|
  {
    if |s| >= |pattern| {
      assert !OccursAt(pattern, s, 0);
      assert Absent(pattern, s[1..]) by {
        forall i: nat | i < |s[1..]| ensures !OccursAt(pattern, s[1..], i) {
          assert !OccursAt(pattern, s, i + 1);
          if i + |pattern| <= |s[1..]| {
            assert s[1..][i..i + |pattern|] == s[i + 1..i + 1 + |pattern|];
          }
        }
      }
      ReplaceAbsent(s[1..], pattern, replacement);
    }
  }

  /**
   * When the first occurrence of the pattern in `a + pattern + b` is the one
   * after `a`, that occurrence is the first one replaced.
   */
  lemma {:induction false} ReplaceFirst(a: string, pattern: string, b: string, replacement: string)
    requires |pattern| > 0
    requires forall i: nat :: i < |a| ==> !OccursAt(pattern, a + pattern + b, i)
    ensures Replace(a + pattern + b, pattern, replacement) == a + replacement + Replace(b, pattern, replacement)
    decreases |a|
  {
    var s := a + pattern + b;
    if a == [] {
      assert s == pattern + b;
      assert s[..|pattern|] == pattern;
      assert s[|pattern|..] == b;
    } else {
      assert !OccursAt(pattern, s, 0);
      assert s[1..] == a[1..] + pattern + b;
      forall i: nat | i < |a[1..]|
        ensures !OccursAt(pattern, a[1..] + pattern + b, i)
      {
        assert !OccursAt(pattern, s, i + 1);
        assert (a[1..] + pattern + b)[i..i + |pattern|] == s[i + 1..i + 1 + |pattern|];
      }
      ReplaceFirst(a[1..], pattern, b, replacement);
      assert [a[0]] + (a[1..] + replacement + Replace(b, pattern, replacement))
          == a + replacement + Replace(b, pattern, replacement);
    }
  }
}
