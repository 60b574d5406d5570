/** String helpers with the meaning of the Python string operations the
    downloader uses: `in`, `startswith`, `endswith`, `split`, `lower`. */
module Text {
  import opened Wrappers

  predicate StartsWith(s: string, p: string) {
    |p| <= |s| && s[..|p|] == p
  }

  predicate EndsWith(s: string, p: string) {
    |p| <= |s| && s[|s| - |p|..] == p
  }

  /** `p` occurs in `s` starting at index `i`. */
  predicate OccursAt(s: string, p: string, i: int) {
    0 <= i <= |s| - |p| && s[i..i + |p|] == p
  }

  /** Python's substring test `p in s`. */
  predicate Contains(s: string, p: string) {
    exists i | 0 <= i <= |s| :: OccursAt(s, p, i)
  }

  /** Length of the longest prefix of `s` free of the characters in `stops`. */
  function Span(s: string, stops: set<char>): (n: nat)
    ensures n <= |s|
    ensures forall k :: 0 <= k < n ==> s[k] !in stops
    ensures n < |s| ==> s[n] in stops
  {
    if |s| == 0 || s[0] in stops then 0 else 1 + Span(s[1..], stops)
  }

  /** The contract of `Span` pins its value down. */
  lemma SpanUnique(s: string, stops: set<char>, n: nat)
    requires n <= |s|
    requires forall k :: 0 <= k < n ==> s[k] !in stops
    requires n < |s| ==> s[n] in stops
    ensures Span(s, stops) == n
  {
  }

  /** Index of the last occurrence of `c` in `s`, if any. */
  function LastIndex(s: string, c: char): (r: Option<nat>)
    ensures r.None? <==> c !in s
    ensures r.Some? ==> r.value < |s| && s[r.value] == c
    ensures r.Some? ==> forall k :: r.value < k < |s| ==> s[k] != c
  {
    if |s| == 0 then None
    else if s[|s| - 1] == c then Some(|s| - 1)
    else LastIndex(s[..|s| - 1], c)
  }

  /** `s.split(sep)[0]`: everything before the first `sep`. */
  function FirstSegment(s: string, sep: char): (r: string)
    ensures StartsWith(s, r)
    ensures sep !in r
    ensures |r| == |s| || s[|r|] == sep
  {
    s[..Span(s, {sep})]
  }

  /** `s.split(sep)[1]`: the text between the first and the second `sep`;
      missing (Python raises `IndexError`) when `sep` does not occur. */
  function SecondSegment(s: string, sep: char): (r: Option<string>)
    ensures r.None? <==> sep !in s
    ensures r.Some? ==> sep !in r.value
    ensures r.Some? ==>
      var n := |FirstSegment(s, sep)|;
      n + 1 + |r.value| <= |s| && s[n + 1..n + 1 + |r.value|] == r.value
      && (n + 1 + |r.value| == |s| || s[n + 1 + |r.value|] == sep)
  {
    var n := Span(s, {sep});
    if n == |s| then None
    else Some(FirstSegment(s[n + 1..], sep))
  }

  /** ASCII lower-casing of one character. */
  function LowerChar(c: char): (d: char)
    ensures 'A' <= c <= 'Z' ==> 'a' <= d <= 'z' && d as int - c as int == 32
    ensures !('A' <= c <= 'Z') ==> d == c
  {
    if 'A' <= c <= 'Z' then (c as int + 32) as char else c
  }

  /** `s.lower()` restricted to ASCII letters. This is exact for the
      tests made with it: the only non-ASCII characters Python lower-cases
      to ASCII are U+212A (to `k`) and U+0130 (to `i` followed by U+0307),
      neither of which can complete "private" or "not accessible", and a
      URL scheme holds ASCII characters only. */
  function Lower(s: string): (r: string)
    ensures |r| == |s|
    ensures forall i :: 0 <= i < |s| ==> r[i] == LowerChar(s[i])
  {
    seq(|s|, i requires 0 <= i < |s| => LowerChar(s[i]))
  }

  /** Lower-casing distributes over concatenation. */
  lemma LowerAppend(a: string, b: string)
    ensures Lower(a + b) == Lower(a) + Lower(b)
  {
    assert forall i :: 0 <= i < |a + b| ==> Lower(a + b)[i] == (Lower(a) + Lower(b))[i];
  }

  /** A witness position makes the substring test true. */
  lemma ContainsAt(s: string, p: string, i: nat)
    requires i + |p| <= |s| && s[i..i + |p|] == p
    ensures Contains(s, p)
  {
    assert OccursAt(s, p, i);
  }

  /** A text lacking one of the characters of `p` does not contain `p`. */
  lemma MissingChar(s: string, p: string, k: nat)
    requires k < |p| && forall i | 0 <= i < |s| :: s[i] != p[k]
    ensures !Contains(s, p)
  {
    forall i | 0 <= i <= |s| ensures !OccursAt(s, p, i) {
      if i + |p| <= |s| {
        assert s[i..i + |p|][k] == s[i + k];
      }
    }
  }

  /** Lower-casing a text with neither the lower- nor the upper-case form
      of a letter does not produce it. */
  lemma LowerLacks(s: string, c: char)
    requires 'a' <= c <= 'z'
    requires forall i | 0 <= i < |s| :: s[i] != c && s[i] != (c as int - 32) as char
    ensures forall i | 0 <= i < |s| :: Lower(s)[i] != c
  {
  }

  /** A text in which a character never appears twice in a row does not
      contain a pattern in which it does. */
  lemma MissingPair(s: string, p: string, k: nat)
    requires k + 1 < |p| && p[k] == p[k + 1]
    requires forall j | 0 <= j < |s| - 1 :: !(s[j] == p[k] && s[j + 1] == p[k])
    ensures !Contains(s, p)
  {
  }
}
