/** String helpers with Python's meaning: `in`, `str.split(sep)`, `str.replace(old, "")`,
    `str.startswith`, `str.strip()` and `str.lower()`, each with the contract the callers rely on. */
module Text {
  import opened Wrappers

  /** `pat` occurs in `s` starting at index `j`. */
  predicate OccursAt(s: string, pat: string, j: int)
  {
    0 <= j && j + |pat| <= |s| && s[j..j + |pat|] == pat
  }

  /** Python's `pat in s`. */
  predicate Contains(s: string, pat: string)
  {
    exists j | 0 <= j <= |s| :: OccursAt(s, pat, j)
  }

  /** Python's `s.startswith(p)`. */
  predicate StartsWith(s: string, p: string)
  {
    |p| <= |s| && s[..|p|] == p
  }

  /** The leftmost occurrence of `pat` in `s` at or after `from` (Python's `s.find(pat, from)`). */
  function FirstIndex(s: string, pat: string, from: nat): (r: Option<nat>)
    decreases |s| - from
    ensures r.Some? ==> from <= r.value && OccursAt(s, pat, r.value)
    ensures r.Some? ==> forall j :: from <= j < r.value ==> !OccursAt(s, pat, j)
    ensures r.None? <==> forall j :: from <= j ==> !OccursAt(s, pat, j)
  {
    if from + |pat| > |s| then None
    else if s[from..from + |pat|] == pat then assert OccursAt(s, pat, from); Some(from)
    else FirstIndex(s, pat, from + 1)
  }

  /** Python's `s.split(sep)` for a non-empty separator: cut at every occurrence,
      scanning from the left and never reusing a character of an occurrence. */
  function SplitOn(s: string, sep: string): (parts: seq<string>)
    requires |sep| > 0
    decreases |s|
    ensures |parts| >= 1
  {
    match FirstIndex(s, sep, 0)
    case None => [s]
    case Some(j) => [s[..j]] + SplitOn(s[j + |sep|..], sep)
  }

  /** Joining the parts with the separator gives back the string. */
  function Join(parts: seq<string>, sep: string): string
    requires |parts| >= 1
  {
    if |parts| == 1 then parts[0] else parts[0] + sep + Join(parts[1..], sep)
  }

  /** Joining the parts of a split with the separator gives back the string. */
  lemma {:induction false} SplitOnJoin(s: string, sep: string)
    requires |sep| > 0
    decreases |s|
    ensures Join(SplitOn(s, sep), sep) == s
  {
    var f := FirstIndex(s, sep, 0);
    if f.Some? {
      var j := f.value;
      var rest := s[j + |sep|..];
      SplitOnJoin(rest, sep);
      JoinCons(s[..j], SplitOn(rest, sep), sep);
      CutAround(s, sep, j);
    }
  }

  lemma JoinCons(a: string, q: seq<string>, sep: string)
    requires |q| >= 1
    ensures Join([a] + q, sep) == a + sep + Join(q, sep)
  {
    assert ([a] + q)[1..] == q;
  }

  /** A string is the text before an occurrence, the occurrence and the text after it. */
  lemma CutAround(s: string, pat: string, j: int)
    requires OccursAt(s, pat, j)
    ensures s == s[..j] + pat + s[j + |pat|..]
  {
    assert s == s[..j] + s[j..j + |pat|] + s[j + |pat|..];
  }

  /** No part of a split holds the separator. */
  lemma {:induction false} SplitOnPartsFree(s: string, sep: string)
    requires |sep| > 0
    decreases |s|
    ensures forall k :: 0 <= k < |SplitOn(s, sep)| ==> !Contains(SplitOn(s, sep)[k], sep)
  {
    var f := FirstIndex(s, sep, 0);
    if f.Some? {
      var j := f.value;
      var rest := s[j + |sep|..];
      SplitOnPartsFree(rest, sep);
      var q := SplitOn(rest, sep);
      var p := SplitOn(s, sep);
      assert p == [s[..j]] + q;
      NoOccurrenceInPrefix(s, sep, j);
      forall k | 0 < k < |p|
        ensures !Contains(p[k], sep)
      {
        assert p[k] == q[k - 1];
      }
    } else {
      assert SplitOn(s, sep) == [s];
    }
  }

  /** Before the first occurrence, the head `s[..j]` holds no occurrence of its own. */
  lemma NoOccurrenceInPrefix(s: string, pat: string, j: nat)
    requires |pat| > 0 && j <= |s|
    requires forall i :: 0 <= i < j ==> !OccursAt(s, pat, i)
    ensures !Contains(s[..j], pat)
  {
    if Contains(s[..j], pat) {
      var i :| 0 <= i <= j && OccursAt(s[..j], pat, i);
      assert s[..j][i..i + |pat|] == s[i..i + |pat|];
      assert OccursAt(s, pat, i);
    }
  }

  /** A string with no occurrence of `sep` is not cut at all. */
  lemma SplitOnAbsent(s: string, sep: string)
    requires |sep| > 0 && !Contains(s, sep)
    ensures SplitOn(s, sep) == [s]
  {
  }

  /** Python's `s.replace(pat, rep)` for a non-empty `pat`: leftmost, non-overlapping. */
  function ReplaceAll(s: string, pat: string, rep: string): string
    requires |pat| > 0
    decreases |s|
  {
    if |s| < |pat| then s
    else if s[..|pat|] == pat then rep + ReplaceAll(s[|pat|..], pat, rep)
    else [s[0]] + ReplaceAll(s[1..], pat, rep)
  }

  /** Replacing a pattern that does not occur changes nothing. */
  lemma {:induction false} ReplaceAllAbsent(s: string, pat: string, rep: string)
    requires |pat| > 0 && !Contains(s, pat)
    decreases |s|
    ensures ReplaceAll(s, pat, rep) == s
  {
    if |s| >= |pat| {
      assert !OccursAt(s, pat, 0);
      assert s[..|pat|] == s[0..0 + |pat|];
      if Contains(s[1..], pat) {
        var i :| 0 <= i <= |s| - 1 && OccursAt(s[1..], pat, i);
        assert s[1..][i..i + |pat|] == s[i + 1..i + 1 + |pat|];
        assert OccursAt(s, pat, i + 1);
      }
      ReplaceAllAbsent(s[1..], pat, rep);
    }
  }

  /** The ASCII characters that Python's `str.strip()` removes: space, tab, line feed, carriage
      return, vertical tab, form feed and the four separators 0x1C to 0x1F. */
  predicate IsSpace(c: char)
  {
    c == ' ' || c == '\t' || c == '\n' || c == '\r' || c == '\U{0B}' || c == '\U{0C}'
    || c == '\U{1C}' || c == '\U{1D}' || c == '\U{1E}' || c == '\U{1F}'
  }

  function TrimStart(s: string): (r: string)
    ensures |r| <= |s| && r == s[|s| - |r|..]
    ensures r != [] ==> !IsSpace(r[0])
    ensures forall i :: 0 <= i < |s| - |r| ==> IsSpace(s[i])
  {
    if s != [] && IsSpace(s[0]) then TrimStart(s[1..]) else s
  }

  function TrimEnd(s: string): (r: string)
    ensures |r| <= |s| && r == s[..|r|]
    ensures r != [] ==> !IsSpace(r[|r| - 1])
    ensures forall i :: |r| <= i < |s| ==> IsSpace(s[i])
  {
    if s != [] && IsSpace(s[|s| - 1]) then TrimEnd(s[..|s| - 1]) else s
  }

  /** Python's `s.strip()` (ASCII whitespace): the result is the part of `s` between
      leading and trailing whitespace, and it is empty exactly when `s` is all whitespace. */
  function Strip(s: string): (r: string)
    ensures r != [] ==> !IsSpace(r[0]) && !IsSpace(r[|r| - 1])
    ensures r == [] <==> forall i :: 0 <= i < |s| ==> IsSpace(s[i])
    ensures Contains(s, r)
  {
    var t := TrimStart(s);
    var r := TrimEnd(t);
    var k := |s| - |t|;
    assert t == s[k..];
    assert r == t[..|r|];
    assert s[k..k + |r|] == s[k..][..|r|];
    assert OccursAt(s, r, k);
    r
  }

  /** `str.strip()` removes exactly the leading and the trailing whitespace: the result is the
      slice of `s` at some offset `k`, with only whitespace before and after it. */
  lemma StripRemovesOnlyEnds(s: string)
    ensures exists k :: StrippedAt(s, Strip(s), k)
  {
    var t := TrimStart(s);
    var r := TrimEnd(t);
    assert r == Strip(s);
    StripIsStrippedAt(s, t, r, |s| - |t|);
  }

  /** `r` is `s` without the `k` whitespace characters in front and the whitespace after it. */
  predicate StrippedAt(s: string, r: string, k: int)
  {
    0 <= k <= |s| - |r| && r == s[k..k + |r|]
    && (forall i :: 0 <= i < k ==> IsSpace(s[i]))
    && (forall i :: k + |r| <= i < |s| ==> IsSpace(s[i]))
  }

  lemma StripIsStrippedAt(s: string, t: string, r: string, k: int)
    requires |t| <= |s| && k == |s| - |t| && t == s[k..] && |r| <= |t| && r == t[..|r|]
    requires forall i :: 0 <= i < k ==> IsSpace(s[i])
    requires forall i :: |r| <= i < |t| ==> IsSpace(t[i])
    ensures StrippedAt(s, r, k)
  {
    forall i | k + |r| <= i < |s|
      ensures IsSpace(s[i])
    {
      assert s[i] == t[i - k];
    }
  }

  function LowerChar(c: char): char
  {
    if 'A' <= c <= 'Z' then (c as int + 32) as char else c
  }

  /** Python's `s.lower()` on ASCII letters; other characters are kept. */
  function Lower(s: string): (r: string)
    ensures |r| == |s|
    ensures forall i :: 0 <= i < |s| ==> r[i] == LowerChar(s[i])
  {
    if s == [] then [] else [LowerChar(s[0])] + Lower(s[1..])
  }
}
