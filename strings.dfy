/**
 * The handful of Python `str` operations the daemon's decisions depend on:
 * `startswith`, `in` (substring), `strip`/`rstrip`, `lower` and slicing `[:n]`.
 * Whitespace and case are the ASCII ones.
 */
module Strings {

  predicate StartsWith(s: string, prefix: string) {
    |prefix| <= |s| && s[..|prefix|] == prefix
  }

  lemma StartsWithTransitive(s: string, t: string, p: string)
    requires StartsWith(s, t) && StartsWith(t, p)
    ensures StartsWith(s, p)
  {
    assert s[..|p|] == t[..|p|];
  }

  /** `p in s`: `p` occurs at some offset of `s`. */
  ghost predicate OccursAt(p: string, s: string, i: int) {
    0 <= i && i + |p| <= |s| && s[i..i + |p|] == p
  }

  function Contains(s: string, p: string): (r: bool)
    ensures r <==> exists i :: OccursAt(p, s, i)
    decreases |s|
  {
    if StartsWith(s, p) then
      assert OccursAt(p, s, 0);
      true
    else if |s| <= |p| then
      assert forall i :: OccursAt(p, s, i) ==> i == 0;
      false
    else
      var r := Contains(s[1..], p);
      assert forall i :: OccursAt(p, s[1..], i) ==> OccursAt(p, s, i + 1) by {
        forall i | OccursAt(p, s[1..], i) ensures OccursAt(p, s, i + 1) {
          assert s[1..][i..i + |p|] == s[i + 1..i + 1 + |p|];
        }
      }
      assert forall i :: OccursAt(p, s, i) && i > 0 ==> OccursAt(p, s[1..], i - 1) by {
        forall i | OccursAt(p, s, i) && i > 0 ensures OccursAt(p, s[1..], i - 1) {
          assert s[1..][i - 1..i - 1 + |p|] == s[i..i + |p|];
        }
      }
      r
  }

  predicate IsSpace(c: char) {
    c == ' ' || c == '\t' || c == '\n' || c == '\r' || c == '\U{000B}' || c == '\U{000C}'
  }

  /** `s.rstrip()`: the longest prefix of `s` that does not end in whitespace. */
  function RStrip(s: string): (r: string)
    ensures |r| <= |s| && r == s[..|r|]
    ensures r == [] || !IsSpace(r[|r| - 1])
    ensures forall i :: |r| <= i < |s| ==> IsSpace(s[i])
  {
    if s == [] || !IsSpace(s[|s| - 1]) then s
    else
      var r := RStrip(s[..|s| - 1]);
      assert s[..|s| - 1][..|r|] == s[..|r|];
      r
  }

  /** `s.lstrip()`: the longest suffix of `s` that does not start with whitespace. */
  function LStrip(s: string): (r: string)
    ensures |r| <= |s| && r == s[|s| - |r|..]
    ensures r == [] || !IsSpace(r[0])
    ensures forall i :: 0 <= i < |s| - |r| ==> IsSpace(s[i])
  {
    if s == [] || !IsSpace(s[0]) then s
    else
      var r := LStrip(s[1..]);
      assert s[1..][|s| - 1 - |r|..] == s[|s| - |r|..];
      r
  }

  /** `s.strip()`. */
  function Strip(s: string): string {
    LStrip(RStrip(s))
  }

  /** A string that neither starts nor ends with whitespace is left alone by `strip`. */
  lemma StripTrimmed(s: string)
    requires s != [] && !IsSpace(s[0]) && !IsSpace(s[|s| - 1])
    ensures Strip(s) == s
  {
  }

  /** `s[:n]` for `n >= 0`. */
  function Take(s: string, n: nat): (r: string)
    ensures |r| == if n <= |s| then n else |s|
    ensures StartsWith(s, r)
  {
    if n <= |s| then s[..n] else s
  }

  function LowerChar(c: char): char {
    if 'A' <= c <= 'Z' then (c as int - 'A' as int + 'a' as int) as char else c
  }

  /** `s.lower()` on ASCII letters. */
  function Lower(s: string): (r: string)
    ensures |r| == |s|
    ensures forall i :: 0 <= i < |s| ==> r[i] == LowerChar(s[i])
  {
    seq(|s|, i requires 0 <= i < |s| => LowerChar(s[i]))
  }

  lemma LowerIdempotent(s: string)
    ensures Lower(Lower(s)) == Lower(s)
  {
  }
}
