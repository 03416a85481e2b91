/**
 Text operations the frame extractor relies on: Rust's `str::starts_with`,
 `str::trim_start_matches` with a string pattern, and `str::trim`.
 */
module Strings {

  /** Rust's `char::is_whitespace`: the Unicode `White_Space` property. */
  predicate IsWhitespace(c: char) {
    || ('\t' <= c <= '\r')
    || c == ' '
    || c == '\U{85}'
    || c == '\U{A0}'
    || c == '\U{1680}'
    || ('\U{2000}' <= c <= '\U{200A}')
    || c == '\U{2028}'
    || c == '\U{2029}'
    || c == '\U{202F}'
    || c == '\U{205F}'
    || c == '\U{3000}'
  }

  predicate AllWhitespace(s: string) {
    forall i :: 0 <= i < |s| ==> IsWhitespace(s[i])
  }

  /** Neither end of `s` is whitespace: what `trim` leaves behind. */
  predicate IsTrimmed(s: string) {
    s == [] || (!IsWhitespace(s[0]) && !IsWhitespace(s[|s| - 1]))
  }

  predicate StartsWith<T(==)>(s: seq<T>, p: seq<T>) {
    |p| <= |s| && s[..|p|] == p
  }

  /** `k` back-to-back copies of `p`. */
  function Repeat<T>(p: seq<T>, k: nat): seq<T> {
    if k == 0 then [] else p + Repeat(p, k - 1)
  }

  /** How many back-to-back copies of `p` open `s`. */
  function Copies<T(==)>(s: seq<T>, p: seq<T>): nat
    requires |p| > 0
    decreases |s|
  {
    if StartsWith(s, p) then 1 + Copies(s[|p|..], p) else 0
  }

  /**
   `trim_start_matches(p)` for a non-empty string pattern: removes every
   leading copy of `p`, not just the first one.
   */
  function StripPrefixes<T(==)>(s: seq<T>, p: seq<T>): (r: seq<T>)
    requires |p| > 0
    ensures !StartsWith(r, p)
    decreases |s|
  {
    if StartsWith(s, p) then StripPrefixes(s[|p|..], p) else s
  }

  /** What `StripPrefixes` removes is exactly `Copies(s, p)` copies of `p`. */
  lemma {:induction false} StripPrefixesSound<T>(s: seq<T>, p: seq<T>)
    requires |p| > 0
    ensures s == Repeat(p, Copies(s, p)) + StripPrefixes(s, p)
    decreases |s|
  {
    if StartsWith(s, p) {
      var s' := s[|p|..];
      StripPrefixesSound(s', p);
      calc {
        s;
        s[..|p|] + s';
        p + s';
        p + (Repeat(p, Copies(s', p)) + StripPrefixes(s', p));
        (p + Repeat(p, Copies(s', p))) + StripPrefixes(s', p);
      }
    }
  }

  /** The split of `s` into leading copies of `p` and a rest that does not start with `p` is unique. */
  lemma {:induction false} StripPrefixesUnique<T>(s: seq<T>, p: seq<T>, k: nat, t: seq<T>)
    requires |p| > 0
    requires s == Repeat(p, k) + t
    requires !StartsWith(t, p)
    ensures StripPrefixes(s, p) == t
    ensures Copies(s, p) == k
    decreases k
  {
    if k > 0 {
      var s' := Repeat(p, k - 1) + t;
      calc {
        s;
        (p + Repeat(p, k - 1)) + t;
        p + s';
      }
      assert s[..|p|] == p;
      assert s[|p|..] == s';
      StripPrefixesUnique(s', p, k - 1, t);
    }
  }

  /** Index of the first non-whitespace character at or after `from` (or `|s|`). */
  function SkipWhitespace(s: string, from: nat): (n: nat)
    requires from <= |s|
    ensures from <= n <= |s|
    ensures forall i :: from <= i < n ==> IsWhitespace(s[i])
    ensures n < |s| ==> !IsWhitespace(s[n])
    decreases |s| - from
  {
    if from < |s| && IsWhitespace(s[from]) then SkipWhitespace(s, from + 1) else from
  }

  /** Index just past the last non-whitespace character before `hi` (or `0`). */
  function SkipWhitespaceBack(s: string, hi: nat): (n: nat)
    requires hi <= |s|
    ensures n <= hi
    ensures forall i :: n <= i < hi ==> IsWhitespace(s[i])
    ensures 0 < n ==> !IsWhitespace(s[n - 1])
    decreases hi
  {
    if 0 < hi && IsWhitespace(s[hi - 1]) then SkipWhitespaceBack(s, hi - 1) else hi
  }

  /** `trim_start`: drops leading whitespace. */
  function TrimStart(s: string): string {
    s[SkipWhitespace(s, 0)..]
  }

  /** `trim_end`: drops trailing whitespace. */
  function TrimEnd(s: string): string {
    s[..SkipWhitespaceBack(s, |s|)]
  }

  /** `s` is whitespace `a`, then a trimmed core `m`, then whitespace `b`. */
  ghost predicate TrimmedFrom(s: string, a: string, m: string, b: string) {
    && s == a + m + b
    && AllWhitespace(a)
    && AllWhitespace(b)
    && IsTrimmed(m)
  }

  /** `str::trim`: drops whitespace from both ends. */
  function Trim(s: string): string {
    TrimEnd(TrimStart(s))
  }

  /** `TrimStart` drops a whitespace prefix and keeps the rest. */
  lemma TrimStartSound(s: string)
    ensures s == s[..|s| - |TrimStart(s)|] + TrimStart(s)
    ensures AllWhitespace(s[..|s| - |TrimStart(s)|])
    ensures TrimStart(s) == [] || !IsWhitespace(TrimStart(s)[0])
  {
    var i := SkipWhitespace(s, 0);
    assert s == s[..i] + s[i..];
  }

  /** `TrimEnd` keeps a prefix and drops the whitespace after it. */
  lemma TrimEndSound(s: string)
    ensures s == TrimEnd(s) + s[|TrimEnd(s)|..]
    ensures AllWhitespace(s[|TrimEnd(s)|..])
    ensures TrimEnd(s) == [] || !IsWhitespace(TrimEnd(s)[|TrimEnd(s)| - 1])
  {
    var j := SkipWhitespaceBack(s, |s|);
    assert s == s[..j] + s[j..];
    var b := s[j..];
    forall k | 0 <= k < |b| ensures IsWhitespace(b[k]) {
      assert b[k] == s[j + k];
    }
  }

  lemma ConcatSplit(s: string, a: string, t: string, r: string, b: string)
    requires s == a + t
    requires t == r + b
    ensures s == a + r + b
  {
    assert a + (r + b) == a + r + b;
  }

  /** The first character of `TrimEnd(t)` is the first character of `t`. */
  lemma TrimEndKeepsStart(t: string)
    requires t == [] || !IsWhitespace(t[0])
    ensures IsTrimmed(TrimEnd(t))
  {
    TrimEndSound(t);
    var r := TrimEnd(t);
    if r != [] {
      assert r[0] == t[0];
    }
  }

  /** The whitespace `Trim` drops from each end of `s`, and the core it keeps. */
  lemma {:induction false} TrimParts(s: string) returns (a: string, b: string)
    ensures TrimmedFrom(s, a, Trim(s), b)
  {
    var t := TrimStart(s);
    var r := TrimEnd(t);
    TrimStartSound(s);
    TrimEndSound(t);
    a := s[..|s| - |t|];
    b := t[|r|..];
    ConcatSplit(s, a, t, r, b);
    TrimEndKeepsStart(t);
  }

  /** `Trim` keeps a trimmed core of `s` and drops only whitespace around it. */
  lemma TrimSound(s: string)
    ensures IsTrimmed(Trim(s))
    ensures exists a, b :: TrimmedFrom(s, a, Trim(s), b)
  {
    var a, b := TrimParts(s);
  }

  /** Whatever way `s` splits into whitespace, a trimmed core and whitespace, `Trim` returns that core. */
  lemma TrimUnique(s: string, a: string, m: string, b: string)
    requires TrimmedFrom(s, a, m, b)
    ensures Trim(s) == m
  {
    var i := SkipWhitespace(s, 0);
    if m == [] {
      assert i == |s|;
      assert TrimStart(s) == [];
    } else {
      assert s[|a|] == m[0];
      assert i == |a|;
      var t := s[i..];
      assert t == m + b;
      var j := SkipWhitespaceBack(t, |t|);
      assert t[|m| - 1] == m[|m| - 1];
      assert j == |m|;
      assert t[..j] == m;
    }
  }
}
