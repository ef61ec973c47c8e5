/**
 * The pieces of Python's `str` behaviour the core relies on: `strip()` with and
 * without an explicit character, and case-insensitive comparison of short
 * ASCII suffixes and prefixes.
 */
module Text {

  /** Python's `str.isspace()` for one character (the characters `strip()` removes). */
  predicate IsSpace(c: char) {
    || '\t' <= c <= '\r'
    || '\U{1C}' <= c <= ' '
    || c == '\U{85}' || c == '\U{A0}' || c == '\U{1680}'
    || '\U{2000}' <= c <= '\U{200A}'
    || c == '\U{2028}' || c == '\U{2029}' || c == '\U{202F}' || c == '\U{205F}' || c == '\U{3000}'
  }

  predicate IsQuote(c: char) {
    c == '"'
  }

  /** Drops the longest prefix of `s` whose characters all satisfy `drop`. */
  function TrimStart(s: string, drop: char -> bool): (r: string)
    ensures |r| <= |s| && r == s[|s| - |r|..]
    ensures r != [] ==> !drop(r[0])
    decreases |s|
  {
    if s != [] && drop(s[0]) then TrimStart(s[1..], drop) else s
  }

  /** Drops the longest suffix of `s` whose characters all satisfy `drop`. */
  function TrimEnd(s: string, drop: char -> bool): (r: string)
    ensures |r| <= |s| && r == s[..|r|]
    ensures r != [] ==> !drop(r[|r| - 1])
    decreases |s|
  {
    if s != [] && drop(s[|s| - 1]) then TrimEnd(s[..|s| - 1], drop) else s
  }

  /** Only characters satisfying `drop` are removed from the front. */
  lemma {:induction false} TrimStartDropsOnly(s: string, drop: char -> bool)
    ensures forall i :: 0 <= i < |s| - |TrimStart(s, drop)| ==> drop(s[i])
    decreases |s|
  {
    if s != [] && drop(s[0]) {
      TrimStartDropsOnly(s[1..], drop);
      assert forall i :: 1 <= i < |s| ==> s[1..][i - 1] == s[i];
    }
  }

  /** Only characters satisfying `drop` are removed from the back. */
  lemma {:induction false} TrimEndDropsOnly(s: string, drop: char -> bool)
    ensures forall i :: |TrimEnd(s, drop)| <= i < |s| ==> drop(s[i])
    decreases |s|
  {
    if s != [] && drop(s[|s| - 1]) {
      TrimEndDropsOnly(s[..|s| - 1], drop);
    }
  }

  /** A text whose first and last characters are kept is left unchanged by trimming both ends. */
  lemma TrimKeepsKeptEnds(s: string, drop: char -> bool)
    requires s != [] && !drop(s[0]) && !drop(s[|s| - 1])
    ensures TrimEnd(TrimStart(s, drop), drop) == s
  {
    assert TrimStart(s, drop) == s;
  }

  /** `s.strip()`: leading and trailing whitespace removed. */
  function Strip(s: string): (r: string)
    ensures r != [] ==> !IsSpace(r[0]) && !IsSpace(r[|r| - 1])
  {
    TrimEnd(TrimStart(s, IsSpace), IsSpace)
  }

  /** `s.strip('"')`: every leading and trailing double quote removed. */
  function StripQuotes(s: string): (r: string)
    ensures r != [] ==> !IsQuote(r[0]) && !IsQuote(r[|r| - 1])
  {
    TrimEnd(TrimStart(s, IsQuote), IsQuote)
  }

  predicate AllSatisfy(s: string, p: char -> bool) {
    forall i :: 0 <= i < |s| ==> p(s[i])
  }

  /** A stripped string starts and ends with a kept character, and is empty only when every character is dropped. */
  lemma TrimBothEnds(s: string, drop: char -> bool)
    ensures var r := TrimEnd(TrimStart(s, drop), drop);
      && (r != [] ==> !drop(r[0]) && !drop(r[|r| - 1]))
      && (r == [] <==> AllSatisfy(s, drop))
  {
    var t := TrimStart(s, drop);
    var r := TrimEnd(t, drop);
    var i := |s| - |t|;
    TrimStartDropsOnly(s, drop);
    TrimEndDropsOnly(t, drop);
    assert r == s[i..i + |r|];
    if r == [] {
      assert t == [];
    } else {
      assert r[0] == t[0];
    }
  }

  /** `Strip(s)` is empty exactly when `s` consists of whitespace only. */
  lemma StripBlank(s: string)
    ensures Strip(s) == [] <==> AllSatisfy(s, IsSpace)
  {
    TrimBothEnds(s, IsSpace);
  }

  /**
   * One character of `str.lower()`, for the characters that lower-case to ASCII:
   * the ASCII capitals and the Kelvin sign (U+212A, which becomes 'k'). Every
   * other character either lower-cases to a non-ASCII text or is left alone, so
   * a comparison against an ASCII suffix is decided by this function alone.
   */
  function LowerChar(c: char): char {
    if 'A' <= c <= 'Z' then (c as int + 32) as char
    else if c == '\U{212A}' then 'k'
    else c
  }

  /**
   * One character of `str.upper()` for ASCII letters. A few other characters
   * upper-case to ASCII capitals (U+0131 to `I`, U+017F to `S`, `ß` to `SS`,
   * U+FB01 to `FI`), but none to text starting with `U`, `R` or `L`, so a
   * comparison against the prefix `URL=` is decided by this function alone.
   */
  function UpperChar(c: char): char {
    if 'a' <= c <= 'z' then (c as int - 32) as char else c
  }

  /** `s.lower().endswith(suffix)` for a lower-case ASCII `suffix`. */
  predicate EndsWithIgnoreCase(s: string, suffix: string) {
    |suffix| <= |s| && forall i :: 0 <= i < |suffix| ==> LowerChar(s[|s| - |suffix| + i]) == suffix[i]
  }

  /** `s.upper().startswith(prefix)` for an upper-case ASCII `prefix`. */
  predicate StartsWithIgnoreCase(s: string, prefix: string) {
    |prefix| <= |s| && forall i :: 0 <= i < |prefix| ==> UpperChar(s[i]) == prefix[i]
  }
}
