/** The JavaScript string built-ins the reporter calls, with ECMAScript's
    semantics for the arguments it passes them. */
module JsText {

  /** `s.search(c)` for a pattern that matches the one character `c`: the
      index of the first `c`, or -1. */
  function Search(s: string, c: char): (r: int)
    ensures -1 <= r < |s|
    ensures r == -1 <==> c !in s
    ensures 0 <= r ==> s[r] == c && c !in s[..r]
  {
    if s == [] then -1
    else if s[0] == c then 0
    else
      var k := Search(s[1..], c);
      assert s == [s[0]] + s[1..];
      if k < 0 then -1
      else
        assert s[..k + 1] == [s[0]] + s[1..][..k];
        k + 1
  }

  /** `s.lastIndexOf(c)` for a one-character string: the index of the last
      `c`, or -1. */
  function LastIndexOf(s: string, c: char): (r: int)
    ensures -1 <= r < |s|
    ensures r == -1 <==> c !in s
    ensures 0 <= r ==> s[r] == c && c !in s[r + 1..]
  {
    if s == [] then -1
    else if s[|s| - 1] == c then |s| - 1
    else
      var k := LastIndexOf(s[..|s| - 1], c);
      assert s == s[..|s| - 1] + [s[|s| - 1]];
      if k >= 0 then assert s[k + 1..] == s[..|s| - 1][k + 1..] + [s[|s| - 1]]; k
      else k
  }

  /** `pat` occurs in `s` at index `i`. */
  predicate OccursAt(s: string, pat: string, i: nat)
  {
    i + |pat| <= |s| && s[i..i + |pat|] == pat
  }

  /** `s.indexOf(pat, from)` for a non-empty `pat`: the first index at or
      after `from` where `pat` occurs, or -1. (For an empty `pat` JavaScript
      answers `min(from, |s|)`; the reporter never searches for one.) */
  function IndexFrom(s: string, pat: string, from: nat): (r: int)
    ensures r == -1 || from <= r
    ensures r == -1 <==> forall i: nat :: from <= i ==> !OccursAt(s, pat, i)
    ensures 0 <= r ==> OccursAt(s, pat, r) && forall i: nat :: from <= i < r ==> !OccursAt(s, pat, i)
    decreases |s| - from
  {
    if from + |pat| > |s| then -1
    else if s[from..from + |pat|] == pat then assert OccursAt(s, pat, from); from
    else IndexFrom(s, pat, from + 1)
  }

  /** `s.replace(pat, '')` for a string pattern: the first occurrence of
      `pat` removed, or `s` unchanged when there is none. */
  function RemoveFirst(s: string, pat: string): (r: string)
    ensures (forall i: nat :: !OccursAt(s, pat, i)) ==> r == s
    ensures forall i: nat ::
      (OccursAt(s, pat, i) && forall j: nat :: j < i ==> !OccursAt(s, pat, j))
        ==> r == s[..i] + s[i + |pat|..]
  {
    var k := IndexFrom(s, pat, 0);
    if k < 0 then s else s[..k] + s[k + |pat|..]
  }

  /** `s.substr(start, length)` for `start >= 0`: up to `length` characters
      from `start`, where a negative length counts as zero. */
  function Substr(s: string, start: nat, length: int): string
  {
    if start >= |s| || length <= 0 then ""
    else s[start..start + if length < |s| - start then length else |s| - start]
  }

  /** A boolean used where a number is expected. */
  function ToNumber(b: bool): int
  {
    if b then 1 else 0
  }

  /** `xs.join(sep)`. */
  function Join(xs: seq<string>, sep: string): string
  {
    if xs == [] then ""
    else if |xs| == 1 then xs[0]
    else Join(xs[..|xs| - 1], sep) + sep + xs[|xs| - 1]
  }
}
