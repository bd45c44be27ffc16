/**
 * The JavaScript string operations the scraper applies to the text it pulls
 * out of a project block: `trim`, `slice(0, -1)`, `replace` with a one-character
 * string pattern, and `match(/\d+/)`.
 */
module JsString {
  import opened Optional

  /** White space as `String.prototype.trim`, `Number` and `parseFloat` see it:
      the WhiteSpace and LineTerminator characters of ECMAScript. */
  predicate IsSpace(c: char) {
    || c == '\t' || c == '\n' || c == '\U{000B}' || c == '\U{000C}' || c == '\r' || c == ' '
    || c == '\U{00A0}' || c == '\U{1680}' || ('\U{2000}' <= c <= '\U{200A}')
    || c == '\U{2028}' || c == '\U{2029}' || c == '\U{202F}' || c == '\U{205F}'
    || c == '\U{3000}' || c == '\U{FEFF}'
  }

  predicate AllSpace(s: string) {
    forall k | 0 <= k < |s| :: IsSpace(s[k])
  }

  /** Drops the leading white space. */
  function TrimStart(s: string): (r: string)
    ensures |r| <= |s| && r == s[|s| - |r|..]
    ensures AllSpace(s[..|s| - |r|])
    ensures r == [] || !IsSpace(r[0])
  {
    if s != [] && IsSpace(s[0]) then
      var r := TrimStart(s[1..]);
      assert s[..|s| - |r|] == [s[0]] + s[1..][..|s| - 1 - |r|];
      r
    else s
  }

  /** Drops the trailing white space. */
  function TrimEnd(s: string): (r: string)
    ensures |r| <= |s| && r == s[..|r|]
    ensures AllSpace(s[|r|..])
    ensures r == [] || !IsSpace(r[|r| - 1])
  {
    if s != [] && IsSpace(s[|s| - 1]) then
      var r := TrimEnd(s[..|s| - 1]);
      assert s[|r|..] == s[..|s| - 1][|r|..] + [s[|s| - 1]];
      r
    else s
  }

  /** `r` is `s` with the white space `s[..lo]` and the white space after
      `lo + |r|` dropped. */
  ghost predicate IsTrimmedInfix(s: string, lo: nat, r: string) {
    && lo + |r| <= |s|
    && s[lo..lo + |r|] == r
    && AllSpace(s[..lo])
    && AllSpace(s[lo + |r|..])
  }

  /** `s.trim()`: the infix of `s` left after dropping white space at both ends. */
  function Trim(s: string): (r: string)
    ensures exists lo :: IsTrimmedInfix(s, lo, r)
    ensures r == [] || (!IsSpace(r[0]) && !IsSpace(r[|r| - 1]))
  {
    var t := TrimStart(s);
    var r := TrimEnd(t);
    TrimmedInfix(s, t, r);
    r
  }

  /** Dropping white space from the front of `s` and then from the back of
      what is left gives an infix of `s` trimmed at both ends. */
  lemma TrimmedInfix(s: string, t: string, r: string)
    requires |t| <= |s| && t == s[|s| - |t|..] && AllSpace(s[..|s| - |t|])
    requires |r| <= |t| && r == t[..|r|] && AllSpace(t[|r|..])
    requires t == [] || !IsSpace(t[0])
    ensures IsTrimmedInfix(s, |s| - |t|, r)
    ensures r == [] || !IsSpace(r[0])
  {
    var lo := |s| - |t|;
    assert s[lo..lo + |r|] == r;
    assert s[lo + |r|..] == t[|r|..];
    assert r != [] ==> r[0] == t[0];
  }

  /** A string that neither starts nor ends with white space is its own trim. */
  lemma {:induction false} TrimKeepsUnpadded(s: string)
    requires s == [] || (!IsSpace(s[0]) && !IsSpace(s[|s| - 1]))
    ensures Trim(s) == s
  {
    assert TrimStart(s) == s;
    assert TrimEnd(s) == s;
  }

  /** A string of white space trims to the empty string. */
  lemma TrimAllSpace(s: string)
    requires AllSpace(s)
    ensures Trim(s) == []
  {
    var r := Trim(s);
    var lo: nat :| IsTrimmedInfix(s, lo, r);
    assert AllSpace(s[lo..lo + |r|]);
  }

  /** `s.slice(0, -1)`: everything but the last character; the empty string stays empty. */
  function DropLast(s: string): (r: string)
    ensures s == [] ==> r == []
    ensures s != [] ==> r + [s[|s| - 1]] == s
  {
    if s == [] then [] else s[..|s| - 1]
  }

  /** Position of the first occurrence of `c` in `s`. */
  function IndexOf(s: string, c: char): (i: nat)
    requires c in s
    ensures i < |s| && s[i] == c
    ensures forall k | 0 <= k < i :: s[k] != c
  {
    if s[0] == c then 0 else 1 + IndexOf(s[1..], c)
  }

  /** `s.replace(from, to)` with one-character strings: only the first
      occurrence of `from` is replaced, every other character is kept. */
  function ReplaceFirst(s: string, from: char, to: char): (r: string)
    ensures from !in s ==> r == s
    ensures from in s ==> r == s[IndexOf(s, from) := to]
  {
    if s == [] then []
    else if s[0] == from then [to] + s[1..]
    else [s[0]] + ReplaceFirst(s[1..], from, to)
  }

  /** The digits `\d` matches: ASCII `0` to `9` only. */
  predicate IsDigit(c: char) {
    '0' <= c <= '9'
  }

  predicate AllDigits(s: string) {
    forall k | 0 <= k < |s| :: IsDigit(s[k])
  }

  predicate NoDigits(s: string) {
    forall k | 0 <= k < |s| :: !IsDigit(s[k])
  }

  /** Length of the longest prefix of `s` made of digits. */
  function LeadingDigits(s: string): (n: nat)
    ensures n <= |s|
    ensures AllDigits(s[..n])
    ensures n < |s| ==> !IsDigit(s[n])
  {
    if s == [] || !IsDigit(s[0]) then 0
    else
      var n := 1 + LeadingDigits(s[1..]);
      assert s[..n] == [s[0]] + s[1..][..n - 1];
      n
  }

  /** `run` is what `s.match(/\d+/)[0]` returns: a non-empty run of digits
      starting at `start`, with no digit before it and none right after it. */
  ghost predicate IsFirstDigitRun(s: string, start: nat, run: string) {
    && start + |run| <= |s|
    && run != []
    && s[start..start + |run|] == run
    && AllDigits(run)
    && NoDigits(s[..start])
    && (start + |run| < |s| ==> !IsDigit(s[start + |run|]))
  }

  /** Position of the first digit of `s`, if any. */
  function FirstDigit(s: string): (r: Option<nat>)
    ensures r.None? <==> NoDigits(s)
    ensures r.Some? ==> r.value < |s| && IsDigit(s[r.value]) && NoDigits(s[..r.value])
  {
    if s == [] then None
    else if IsDigit(s[0]) then Some(0)
    else
      var r := FirstDigit(s[1..]);
      assert forall k | 1 <= k < |s| :: s[k] == s[1..][k - 1];
      if r.None? then None
      else
        assert s[..r.value + 1] == [s[0]] + s[1..][..r.value];
        Some(r.value + 1)
  }

  /** `s.match(/\d+/)`, with `None` for the `null` JavaScript returns when
      there is no digit at all. */
  function MatchDigits(s: string): (r: Option<string>)
    ensures r.None? <==> NoDigits(s)
    ensures r.Some? ==> exists start :: IsFirstDigitRun(s, start, r.value)
  {
    match FirstDigit(s)
    case None => None
    case Some(i) =>
      var n := LeadingDigits(s[i..]);
      var run := s[i..i + n];
      assert n > 0;
      assert run == s[i..][..n];
      assert i + n < |s| ==> s[i + n] == s[i..][n];
      assert IsFirstDigitRun(s, i, run);
      Some(run)
  }

  /** The first maximal run of digits is unique, so the contract of
      `MatchDigits` determines its result. */
  lemma FirstDigitRunUnique(s: string, i: nat, a: string, j: nat, b: string)
    requires IsFirstDigitRun(s, i, a) && IsFirstDigitRun(s, j, b)
    ensures i == j && a == b
  {
    assert forall k | 0 <= k < i :: s[..i][k] == s[k];
    assert forall k | 0 <= k < j :: s[..j][k] == s[k];
    assert forall k | i <= k < i + |a| :: s[k] == s[i..i + |a|][k - i] == a[k - i];
    assert forall k | j <= k < j + |b| :: s[k] == s[j..j + |b|][k - j] == b[k - j];
    assert IsDigit(s[i]) && IsDigit(s[j]);
    assert i == j;
    assert |a| == |b|;
  }
}
