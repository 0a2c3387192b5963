/** Python string operations the chat client relies on, over `string` (a sequence of
    Unicode scalar values, like a Python `str` of code points). */
module Strings {

  /** `"".join(parts)`: the parts glued together in order. */
  function Concat(parts: seq<string>): (s: string)
    decreases |parts|
  {
    if |parts| == 0 then "" else parts[0] + Concat(parts[1..])
  }

  /** `sep.join(parts)`: nothing for no parts, the part itself for one. */
  function Join(sep: string, parts: seq<string>): (s: string)
    ensures |parts| == 0 ==> s == ""
    ensures |parts| == 1 ==> s == parts[0]
    decreases |parts|
  {
    if |parts| == 0 then ""
    else if |parts| == 1 then parts[0]
    else parts[0] + sep + Join(sep, parts[1..])
  }

  /** `s[:n]` for a non-negative `n`. */
  function Take(s: string, n: nat): (r: string)
    ensures |r| == if |s| <= n then |s| else n
    ensures r <= s
  {
    if |s| <= n then s else s[..n]
  }

  /** `s.startswith(p)`. */
  predicate StartsWith(s: string, p: string) {
    |p| <= |s| && s[..|p|] == p
  }

  /** `needle in s` on strings: `needle` occurs somewhere in `s` (the empty string occurs everywhere). */
  predicate IsInfix(needle: string, s: string)
    decreases |s|
  {
    StartsWith(s, needle) || (|s| > 0 && IsInfix(needle, s[1..]))
  }

  /** An occurrence of `needle` at offset `k` makes it an infix. */
  lemma {:induction false} InfixAt(needle: string, s: string, k: nat)
    requires k <= |s| && StartsWith(s[k..], needle)
    ensures IsInfix(needle, s)
    decreases k
  {
    if k > 0 {
      assert s[1..][k - 1..] == s[k..];
      InfixAt(needle, s[1..], k - 1);
    }
  }

  /** `c.isspace()` in Python 3: bidirectional class WS, B or S, or general category Zs. */
  predicate IsSpace(c: char) {
    || ('\t' <= c <= '\r')
    || ('\U{1C}' <= c <= '\U{1F}')
    || c == ' '
    || c == '\U{85}'
    || c == '\U{A0}'
    || c == '\U{1680}'
    || ('\U{2000}' <= c <= '\U{200A}')
    || c == '\U{2028}'
    || c == '\U{2029}'
    || c == '\U{202F}'
    || c == '\U{205F}'
    || c == '\U{3000}'
  }

  predicate AllSpace(s: string) {
    forall i :: 0 <= i < |s| ==> IsSpace(s[i])
  }

  /** How many white-space characters `s` starts with. */
  function LeadingSpace(s: string): (n: nat)
    ensures n <= |s| && AllSpace(s[..n])
    ensures n == |s| || !IsSpace(s[n])
    decreases |s|
  {
    if |s| > 0 && IsSpace(s[0]) then
      var m := LeadingSpace(s[1..]);
      assert s[..m + 1] == [s[0]] + s[1..][..m];
      AllSpaceConcat([s[0]], s[1..][..m]);
      assert m < |s| - 1 ==> s[1..][m] == s[m + 1];
      m + 1
    else 0
  }

  /** How many white-space characters `s` ends with. */
  function TrailingSpace(s: string): (n: nat)
    ensures n <= |s| && AllSpace(s[|s| - n..])
    ensures n == |s| || !IsSpace(s[|s| - n - 1])
    decreases |s|
  {
    if |s| > 0 && IsSpace(s[|s| - 1]) then
      var p := s[..|s| - 1];
      var m := TrailingSpace(p);
      assert s[|s| - (m + 1)..] == p[|p| - m..] + [s[|s| - 1]];
      AllSpaceConcat(p[|p| - m..], [s[|s| - 1]]);
      assert m < |p| ==> p[|p| - m - 1] == s[|s| - (m + 1) - 1];
      m + 1
    else 0
  }

  /** `s.lstrip()`: what remains is a suffix of `s`, everything cut is white space,
      and the remainder does not itself start with white space. */
  function TrimLeft(s: string): (r: string)
    ensures |r| <= |s| && r == s[|s| - |r|..]
    ensures AllSpace(s[..|s| - |r|])
    ensures |r| == 0 || !IsSpace(r[0])
  {
    s[LeadingSpace(s)..]
  }

  /** `s.rstrip()`: what remains is a prefix of `s`, everything cut is white space,
      and the remainder does not itself end with white space. */
  function TrimRight(s: string): (r: string)
    ensures r <= s
    ensures AllSpace(s[|r|..])
    ensures |r| == 0 || !IsSpace(r[|r| - 1])
  {
    s[..|s| - TrailingSpace(s)]
  }

  /** `s.strip()`: a text no longer than `s`, without white space at either end, and
      empty exactly when `s` is all white space. */
  function Strip(s: string): (r: string)
    ensures |r| <= |s|
    ensures |r| == 0 || (!IsSpace(r[0]) && !IsSpace(r[|r| - 1]))
    ensures |r| == 0 <==> AllSpace(s)
  {
    var l := TrimLeft(s);
    var r := TrimRight(l);
    TrimmedEnds(s, l, r);
    r
  }

  /** What `lstrip` then `rstrip` leave: no longer than `s`, no white space at either
      end, and nothing exactly when `s` is all white space. */
  lemma TrimmedEnds(s: string, l: string, r: string)
    requires |l| <= |s| && l == s[|s| - |l|..] && AllSpace(s[..|s| - |l|])
    requires |l| == 0 || !IsSpace(l[0])
    requires r <= l && AllSpace(l[|r|..])
    requires |r| == 0 || !IsSpace(r[|r| - 1])
    ensures |r| <= |s|
    ensures |r| == 0 || (!IsSpace(r[0]) && !IsSpace(r[|r| - 1]))
    ensures |r| == 0 <==> AllSpace(s)
  {
    if |r| > 0 {
      assert r[0] == l[0] == s[|s| - |l|];
    } else {
      assert s == s[..|s| - |l|] + l[|r|..];
      AllSpaceConcat(s[..|s| - |l|], l[|r|..]);
    }
  }

  /** White space followed by white space is white space. */
  lemma AllSpaceConcat(a: string, b: string)
    requires AllSpace(a) && AllSpace(b)
    ensures AllSpace(a + b)
  {
  }

  lemma {:induction false} ConcatAppend(a: seq<string>, b: seq<string>)
    ensures Concat(a + b) == Concat(a) + Concat(b)
    decreases |a|
  {
    if |a| == 0 {
      assert a + b == b;
    } else {
      assert (a + b)[1..] == a[1..] + b;
      ConcatAppend(a[1..], b);
    }
  }

  /** The concatenation of a prefix of the parts is a prefix of the concatenation of all. */
  lemma ConcatPrefix(parts: seq<string>, i: nat, j: nat)
    requires i <= j <= |parts|
    ensures Concat(parts[..i]) <= Concat(parts[..j])
  {
    assert parts[..j] == parts[..i] + parts[i..j];
    ConcatAppend(parts[..i], parts[i..j]);
  }

  /** Joining with an empty separator is plain concatenation. */
  lemma {:induction false} JoinEmptySeparator(parts: seq<string>)
    ensures Join("", parts) == Concat(parts)
    decreases |parts|
  {
    if |parts| == 1 {
      assert Concat(parts) == parts[0] + Concat([]);
      assert parts[0] + "" == parts[0];
    } else if |parts| > 1 {
      JoinEmptySeparator(parts[1..]);
      assert parts[0] + "" + Join("", parts[1..]) == parts[0] + Join("", parts[1..]);
    }
  }

  /** `sep` goes between consecutive parts: joining one more part appends the
      separator and that part. */
  lemma {:induction false} JoinAppend(sep: string, parts: seq<string>, p: string)
    requires |parts| > 0
    ensures Join(sep, parts + [p]) == Join(sep, parts) + sep + p
    decreases |parts|
  {
    if |parts| > 1 {
      assert (parts + [p])[1..] == parts[1..] + [p];
      JoinAppend(sep, parts[1..], p);
    } else {
      assert (parts + [p])[1..] == [p];
    }
  }

  /** White-space padding `w` before a text that starts with a non-space is exactly the
      leading white space of `w + s`, so `lstrip` cuts it and nothing more. */
  lemma {:induction false} TrimLeftPadding(w: string, s: string)
    requires AllSpace(w)
    requires |s| > 0 && !IsSpace(s[0])
    ensures LeadingSpace(w + s) == |w|
    ensures TrimLeft(w + s) == s
    decreases |w|
  {
    if |w| == 0 {
      assert w + s == s;
    } else {
      assert (w + s)[0] == w[0];
      assert (w + s)[1..] == w[1..] + s;
      TrimLeftPadding(w[1..], s);
    }
    assert (w + s)[|w|..] == s;
  }

  /** White-space padding `w` after a text that ends with a non-space is exactly the
      trailing white space of `s + w`, so `rstrip` cuts it and nothing more. */
  lemma {:induction false} TrimRightPadding(s: string, w: string)
    requires AllSpace(w)
    requires |s| > 0 && !IsSpace(s[|s| - 1])
    ensures TrailingSpace(s + w) == |w|
    ensures TrimRight(s + w) == s
    decreases |w|
  {
    var sw := s + w;
    if |w| == 0 {
      assert sw == s;
    } else {
      assert sw[|sw| - 1] == w[|w| - 1];
      assert sw[..|sw| - 1] == s + w[..|w| - 1];
      TrimRightPadding(s, w[..|w| - 1]);
    }
    assert sw[..|sw| - |w|] == s;
  }

  /** Whatever `s.strip()` leaves is a slice of `s` with white space on both sides of it. */
  lemma StripSlice(s: string) returns (i: nat, j: nat)
    ensures PaddedAt(s, Strip(s), i, j)
  {
    i := LeadingSpace(s);
    var l := s[i..];
    var t := TrailingSpace(l);
    j := |s| - t;
    assert TrimLeft(s) == l;
    assert TrimRight(l) == l[..|l| - t] == s[i..j];
    assert AllSpace(s[..i]);
    assert AllSpace(s[j..]) by {
      assert s[j..] == l[|l| - t..];
    }
  }

  /** Stripping white-space padding recovers the padded text. */
  lemma StripPadded(w1: string, core: string, w2: string)
    requires AllSpace(w1) && AllSpace(w2)
    requires |core| > 0 && !IsSpace(core[0]) && !IsSpace(core[|core| - 1])
    ensures Strip(w1 + core + w2) == core
  {
    assert w1 + core + w2 == w1 + (core + w2);
    assert (core + w2)[0] == core[0];
    TrimLeftPadding(w1, core + w2);
    TrimRightPadding(core, w2);
  }

  /** `s` is `core` with white space before position `i` and from position `j` on. */
  predicate PaddedAt(s: string, core: string, i: nat, j: nat) {
    i <= j <= |s| && s[i..j] == core && AllSpace(s[..i]) && AllSpace(s[j..])
  }

  /** Padding on both sides strips away to the core it surrounds. */
  lemma PaddedStrips(s: string, core: string, i: nat, j: nat)
    requires |core| > 0 && !IsSpace(core[0]) && !IsSpace(core[|core| - 1])
    requires PaddedAt(s, core, i, j)
    ensures Strip(s) == core
  {
    assert s == s[..i] + core + s[j..];
    StripPadded(s[..i], core, s[j..]);
  }

  /** `s.strip() == core` exactly when `s` is `core` padded with white space on both
      sides, for any `core` that starts and ends with a non-space character. */
  lemma StripIsCore(s: string, core: string)
    requires |core| > 0 && !IsSpace(core[0]) && !IsSpace(core[|core| - 1])
    ensures Strip(s) == core <==> exists i, j :: PaddedAt(s, core, i, j)
  {
    if Strip(s) == core {
      var i, j := StripSlice(s);
      assert PaddedAt(s, core, i, j);
    }
    if exists i, j :: PaddedAt(s, core, i, j) {
      var i: nat, j: nat :| PaddedAt(s, core, i, j);
      PaddedStrips(s, core, i, j);
    }
  }
}
