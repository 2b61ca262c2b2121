// The string operations of the host language that the parser and the values
// rely on: searching, splitting, trimming and replacing every occurrence.
module Strings {

  /** p is a prefix of s. */
  predicate HasPrefix(s: string, p: string)
  {
    |p| <= |s| && s[..|p|] == p
  }

  /** p occurs somewhere in s (the host's `includes`). */
  predicate Contains(s: string, p: string)
    decreases |s|
  {
    HasPrefix(s, p) || (s != [] && Contains(s[1..], p))
  }

  /** The index of the first occurrence of p in s, or -1 (the host's `indexOf`). */
  function IndexOf(s: string, p: string): (r: int)
    ensures -1 <= r <= |s|
    ensures r >= 0 ==> r + |p| <= |s|
    decreases |s|
  {
    if HasPrefix(s, p) then 0
    else if s == [] then -1
    else
      var k := IndexOf(s[1..], p);
      if k < 0 then -1 else k + 1
  }

  /** A found index is the start of an occurrence. */
  lemma {:induction false} IndexOfOccurs(s: string, p: string)
    ensures IndexOf(s, p) >= 0 ==> s[IndexOf(s, p)..][..|p|] == p
    decreases |s|
  {
    if !HasPrefix(s, p) && s != [] {
      IndexOfOccurs(s[1..], p);
      var k := IndexOf(s[1..], p);
      if k >= 0 {
        assert s[k + 1..] == s[1..][k..];
      }
    }
  }

  lemma {:induction false} IndexOfFound(s: string, p: string)
    ensures IndexOf(s, p) >= 0 <==> Contains(s, p)
    decreases |s|
  {
    if !HasPrefix(s, p) && s != [] {
      IndexOfFound(s[1..], p);
    }
  }

  /** No occurrence of p starts before IndexOf(s, p). */
  lemma {:induction false} IndexOfFirst(s: string, p: string, j: nat)
    requires j < |s| && (IndexOf(s, p) < 0 || j < IndexOf(s, p))
    ensures !HasPrefix(s[j..], p)
    decreases |s|
  {
    if j > 0 {
      assert s[1..][j - 1..] == s[j..];
      IndexOfFirst(s[1..], p, j - 1);
    }
  }

  /** What comes before the first occurrence of p holds no occurrence of p. */
  lemma NoneBeforeFirst(s: string, p: string)
    requires |p| > 0 && IndexOf(s, p) >= 0
    ensures !Contains(s[..IndexOf(s, p)], p)
  {
    var source := s[..IndexOf(s, p)];
    if Contains(source, p) {
      IndexOfFound(source, p);
      var j := IndexOf(source, p);
      IndexOfOccurs(source, p);
      assert s[j..][..|p|] == source[j..][..|p|];
      IndexOfFirst(s, p, j);
    }
  }

  /** The host's `split` with a non-empty separator. */
  function Split(s: string, sep: string): (parts: seq<string>)
    requires |sep| > 0
    ensures |parts| >= 1
    decreases |s|
  {
    var i := IndexOf(s, sep);
    if i < 0 then [s]
    else [s[..i]] + Split(s[i + |sep|..], sep)
  }

  /** Every part is no longer than the string, and every part after the
      first follows an occurrence of the separator. */
  lemma {:induction false} SplitPartsShorter(s: string, sep: string, k: nat)
    requires |sep| > 0 && k < |Split(s, sep)|
    ensures |Split(s, sep)[k]| <= |s|
    ensures k >= 1 ==> |Split(s, sep)[k]| + |sep| <= |s|
    decreases |s|
  {
    var i := IndexOf(s, sep);
    if i >= 0 && k >= 1 {
      IndexOfOccurs(s, sep);
      var rest := s[i + |sep|..];
      assert Split(s, sep)[k] == Split(rest, sep)[k - 1];
      SplitPartsShorter(rest, sep, k - 1);
    }
  }

  /** The host's `join`. */
  function Join(parts: seq<string>, sep: string): string
  {
    if parts == [] then []
    else if |parts| == 1 then parts[0]
    else parts[0] + sep + Join(parts[1..], sep)
  }

  lemma SliceThree(s: string, i: nat, sep: string)
    requires i + |sep| <= |s| && s[i..][..|sep|] == sep
    ensures s == s[..i] + sep + s[i + |sep|..]
  {
    assert s[i..i + |sep|] == sep;
  }

  lemma JoinCons(a: string, tail: seq<string>, sep: string)
    requires |tail| >= 1
    ensures Join([a] + tail, sep) == a + sep + Join(tail, sep)
  {
    assert ([a] + tail)[1..] == tail;
  }

  /** Splitting loses nothing: joining the parts with the separator gives the
      original string back. */
  lemma {:induction false} SplitJoin(s: string, sep: string)
    requires |sep| > 0
    ensures Join(Split(s, sep), sep) == s
    decreases |s|
  {
    var i := IndexOf(s, sep);
    if i >= 0 {
      IndexOfOccurs(s, sep);
      var head, rest := s[..i], s[i + |sep|..];
      SplitJoin(rest, sep);
      var tail := Split(rest, sep);
      assert Split(s, sep) == [head] + tail;
      JoinCons(head, tail, sep);
      SliceThree(s, i, sep);
    }
  }

  /** Without the separator, splitting yields the whole string. */
  lemma SplitWithout(s: string, sep: string)
    requires |sep| > 0 && !Contains(s, sep)
    ensures Split(s, sep) == [s]
  {
    IndexOfFound(s, sep);
  }

  /** White space (the host's WhiteSpace and LineTerminator characters). */
  predicate IsSpace(c: char)
  {
    c == ' ' || c == '\t' || c == '\n' || c == '\r' || c == '\U{000B}' || c == '\U{000C}' ||
    c == '\U{00A0}' || c == '\U{1680}' || ('\U{2000}' <= c <= '\U{200A}') ||
    c == '\U{2028}' || c == '\U{2029}' || c == '\U{202F}' || c == '\U{205F}' ||
    c == '\U{3000}' || c == '\U{FEFF}'
  }

  /** The host's `trimStart`. */
  function TrimStart(s: string): (r: string)
    ensures |r| <= |s| && r == s[|s| - |r|..]
    ensures r == [] || !IsSpace(r[0])
  {
    if s != [] && IsSpace(s[0]) then TrimStart(s[1..]) else s
  }

  /** The host's `trimEnd`. */
  function TrimEnd(s: string): (r: string)
    ensures |r| <= |s| && r == s[..|r|]
    ensures r == [] || !IsSpace(r[|r| - 1])
  {
    if s != [] && IsSpace(s[|s| - 1]) then TrimEnd(s[..|s| - 1]) else s
  }

  /** The host's `trim`. */
  function Trim(s: string): string
  {
    TrimEnd(TrimStart(s))
  }

  predicate AllSpace(s: string)
  {
    forall i :: 0 <= i < |s| ==> IsSpace(s[i])
  }

  lemma {:induction false} TrimStartAllSpace(s: string)
    ensures TrimStart(s) == [] <==> AllSpace(s)
  {
    if s != [] && IsSpace(s[0]) {
      TrimStartAllSpace(s[1..]);
      assert forall i :: 1 <= i < |s| ==> s[i] == s[1..][i - 1];
    }
  }

  /** A string trims to nothing exactly when it is all white space. */
  lemma TrimEmpty(s: string)
    ensures Trim(s) == [] <==> AllSpace(s)
  {
    TrimStartAllSpace(s);
    var t := TrimStart(s);
    if t != [] {
      assert !IsSpace(t[0]);
      assert TrimEnd(t) != [] by {
        if TrimEnd(t) == [] { TrimEndKeepsFirst(t); }
      }
    }
  }

  lemma {:induction false} TrimEndKeepsFirst(s: string)
    requires s != [] && !IsSpace(s[0])
    ensures TrimEnd(s) != []
    decreases |s|
  {
    if IsSpace(s[|s| - 1]) {
      TrimEndKeepsFirst(s[..|s| - 1]);
    }
  }

  /** Every occurrence of pat, scanning left to right without overlap, replaced
      by rep (the host's `replace` with a global pattern). */
  function ReplaceAll(s: string, pat: string, rep: string): string
    requires |pat| > 0
    decreases |s|
  {
    if s == [] then []
    else if HasPrefix(s, pat) then rep + ReplaceAll(s[|pat|..], pat, rep)
    else [s[0]] + ReplaceAll(s[1..], pat, rep)
  }

  /** Replacing a pattern that does not occur changes nothing. */
  lemma {:induction false} ReplaceAbsent(s: string, pat: string, rep: string)
    requires |pat| > 0 && !Contains(s, pat)
    ensures ReplaceAll(s, pat, rep) == s
    decreases |s|
  {
    if s != [] {
      ReplaceAbsent(s[1..], pat, rep);
      assert s == [s[0]] + s[1..];
    }
  }

  /** The decimal text of a natural number (the host's `${n}` for a count). */
  function NatText(n: nat): (s: string)
    ensures |s| > 0
    decreases n
  {
    if n < 10 then ["0123456789"[n]] else NatText(n / 10) + ["0123456789"[n % 10]]
  }
}
