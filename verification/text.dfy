/**
 * The handful of Python string operations the pipeline relies on:
 * `str.strip()` with no argument, `str.find`, `str.rfind` and prefix slicing.
 */
module Text {

  /** The characters Python's `str.isspace` accepts, which are exactly the
      characters `str.strip()` removes when called without an argument:
      tab through carriage return, the four information separators, space,
      next line, no-break space, ogham space mark, the spaces U+2000 to
      U+200A, the line and paragraph separators, narrow no-break space,
      medium mathematical space and ideographic space. */
  const Whitespace: set<char> := {
    '\t', '\n', '\U{B}', '\U{C}', '\r',
    '\U{1C}', '\U{1D}', '\U{1E}', '\U{1F}', ' ',
    '\U{85}', '\U{A0}', '\U{1680}',
    '\U{2000}', '\U{2001}', '\U{2002}', '\U{2003}', '\U{2004}', '\U{2005}',
    '\U{2006}', '\U{2007}', '\U{2008}', '\U{2009}', '\U{200A}',
    '\U{2028}', '\U{2029}', '\U{202F}', '\U{205F}', '\U{3000}'
  }

  predicate IsSpace(c: char) {
    c in Whitespace
  }

  predicate AllSpace(s: string) {
    forall i :: 0 <= i < |s| ==> IsSpace(s[i])
  }

  /** Neither end of `s` is whitespace. */
  predicate IsStripped(s: string) {
    |s| == 0 || (!IsSpace(s[0]) && !IsSpace(s[|s| - 1]))
  }

  /** Drops trailing whitespace: the result is the prefix of `s` before a
      run of whitespace, and it does not itself end with whitespace. */
  function TrimEnd(s: string): (r: string)
    ensures |r| <= |s| && r == s[..|r|]
    ensures AllSpace(s[|r|..])
    ensures |r| == 0 || !IsSpace(r[|r| - 1])
  {
    if |s| > 0 && IsSpace(s[|s| - 1]) then
      var r := TrimEnd(s[..|s| - 1]);
      assert s[|r|..] == s[..|s| - 1][|r|..] + [s[|s| - 1]];
      r
    else s
  }

  /** Python's `s.strip()`: leading whitespace is dropped one character at a
      time, then trailing whitespace. */
  function Strip(s: string): (r: string)
    ensures |r| <= |s|
    ensures IsStripped(r)
    ensures r == [] <==> AllSpace(s)
    ensures IsStripped(s) ==> r == s
  {
    if |s| > 0 && IsSpace(s[0]) then
      var r := Strip(s[1..]);
      assert AllSpace(s[1..]) ==> AllSpace(s);
      r
    else TrimEnd(s)
  }

  /** `Strip(s)` is the window of `s` that remains once a whitespace run is
      cut from each end. */
  lemma {:induction false} StripWindow(s: string) returns (i: nat)
    ensures i + |Strip(s)| <= |s|
    ensures Strip(s) == s[i..i + |Strip(s)|]
    ensures AllSpace(s[..i]) && AllSpace(s[i + |Strip(s)|..])
    decreases |s|
  {
    if |s| > 0 && IsSpace(s[0]) {
      var j := StripWindow(s[1..]);
      i := WidenWindow(s, Strip(s[1..]), j);
    } else {
      i := 0;
    }
  }

  /** A window of `s[1..]` with whitespace around it, read in `s` when
      `s[0]` is whitespace too. */
  lemma WidenWindow(s: string, r: string, j: nat) returns (i: nat)
    requires |s| > 0 && IsSpace(s[0])
    requires j + |r| <= |s| - 1 && r == s[1..][j..j + |r|]
    requires AllSpace(s[1..][..j]) && AllSpace(s[1..][j + |r|..])
    ensures i + |r| <= |s| && r == s[i..i + |r|]
    ensures AllSpace(s[..i]) && AllSpace(s[i + |r|..])
  {
    i := j + 1;
    assert s[..i] == [s[0]] + s[1..][..j];
    assert s[i + |r|..] == s[1..][j + |r|..];
  }

  /** Python's `s.find(c)`: the first index of `c`, or -1 when absent. */
  function Find(s: string, c: char): (r: int)
    ensures -1 <= r < |s|
    ensures r == -1 <==> c !in s
    ensures r >= 0 ==> s[r] == c && c !in s[..r]
  {
    if |s| == 0 then -1
    else if s[0] == c then 0
    else
      var k := Find(s[1..], c);
      if k < 0 then
        assert s == [s[0]] + s[1..];
        -1
      else
        assert s[..k + 1] == [s[0]] + s[1..][..k];
        k + 1
  }

  /** Python's `s.rfind(c)`: the last index of `c`, or -1 when absent. */
  function RFind(s: string, c: char): (r: int)
    ensures -1 <= r < |s|
    ensures r == -1 <==> c !in s
    ensures r >= 0 ==> s[r] == c && c !in s[r + 1..]
  {
    if |s| == 0 then -1
    else if s[|s| - 1] == c then |s| - 1
    else
      var k := RFind(s[..|s| - 1], c);
      if k < 0 then
        assert s == s[..|s| - 1] + [s[|s| - 1]];
        -1
      else
        assert s[k + 1..] == s[..|s| - 1][k + 1..] + [s[|s| - 1]];
        k
  }

  /** Python's `s[:n]` for a non-negative `n`: the first `n` characters, or
      all of `s` when it is shorter. */
  function Take(s: string, n: nat): (r: string)
    ensures |r| == if |s| < n then |s| else n
    ensures r <= s
  {
    if |s| <= n then s else s[..n]
  }
}
