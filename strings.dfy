/** Character-level helpers shared by the URL model: searching, slicing
    predicates and the ASCII lower-casing of Python 2's `str.lower()`. */
module Strings {

  /** `s.find(c)`: the first index of `c`, or -1. */
  function IndexOf(s: string, c: char): (i: int)
    ensures -1 <= i < |s|
    ensures i == -1 <==> c !in s
    ensures 0 <= i ==> s[i] == c && c !in s[..i]
  {
    if |s| == 0 then -1
    else if s[0] == c then 0
    else
      var j := IndexOf(s[1..], c);
      assert s[1..][..if j < 0 then 0 else j] == s[1..if j < 0 then 1 else j + 1];
      if j < 0 then -1 else j + 1
  }

  /** `s.rfind(c)`: the last index of `c`, or -1. */
  function LastIndexOf(s: string, c: char): (i: int)
    ensures -1 <= i < |s|
    ensures i == -1 <==> c !in s
    ensures 0 <= i ==> s[i] == c && forall k :: i < k < |s| ==> s[k] != c
    decreases |s|
  {
    if |s| == 0 then -1
    else if s[|s| - 1] == c then |s| - 1
    else
      var t := s[..|s| - 1];
      var j := LastIndexOf(t, c);
      assert forall k :: 0 <= k < |t| ==> s[k] == t[k];
      assert j < 0 ==> s == t + [s[|s| - 1]];
      j
  }

  /** `s.find(c, start)` for `0 <= start`: the first index at or after
      `start` holding `c`, or -1. */
  function IndexOfFrom(s: string, c: char, start: nat): (i: int)
    ensures -1 <= i < |s|
    ensures i == -1 <==> (forall k :: start <= k < |s| ==> s[k] != c)
    ensures 0 <= i ==> start <= i && s[i] == c && (forall k :: start <= k < i ==> s[k] != c)
  {
    if start >= |s| then -1
    else
      var j := IndexOf(s[start..], c);
      assert forall k :: start <= k < |s| ==> s[k] == s[start..][k - start];
      if j < 0 then -1 else start + j
  }

  /** The first index holding one of `cs`, or `|s|` when there is none. */
  function FirstOf(s: string, cs: set<char>): (i: nat)
    ensures i <= |s|
    ensures forall k :: 0 <= k < i ==> s[k] !in cs
    ensures i < |s| ==> s[i] in cs
  {
    if |s| == 0 then 0
    else if s[0] in cs then 0
    else 1 + FirstOf(s[1..], cs)
  }

  predicate IsUpper(c: char) { 'A' <= c <= 'Z' }

  predicate IsDigit(c: char) { '0' <= c <= '9' }

  predicate AllDigits(s: string) { forall k :: 0 <= k < |s| ==> IsDigit(s[k]) }

  /** No ASCII capital letter occurs in `s`. */
  predicate NoUpper(s: string) { forall k :: 0 <= k < |s| ==> !IsUpper(s[k]) }

  /** No character of `bad` occurs in `s`. */
  predicate Avoids(s: string, bad: set<char>) { forall k :: 0 <= k < |s| ==> s[k] !in bad }

  /** Python 2's `str.lower()` on one byte: only `A`..`Z` change. */
  function LowerChar(c: char): (d: char)
    ensures !IsUpper(d)
    ensures IsUpper(c) ==> d as int == c as int + 32
    ensures !IsUpper(c) ==> d == c
  {
    if IsUpper(c) then (c as int + 32) as char else c
  }

  /** Python 2's `str.lower()`. */
  function Lower(s: string): (r: string)
    ensures |r| == |s|
    ensures forall k :: 0 <= k < |s| ==> r[k] == LowerChar(s[k])
  {
    if s == [] then [] else [LowerChar(s[0])] + Lower(s[1..])
  }

  /** Lower-casing leaves no capital letter, and lower-casing twice is
      lower-casing once. */
  lemma LowerIsLower(s: string)
    ensures NoUpper(Lower(s))
    ensures Lower(Lower(s)) == Lower(s)
  {
  }

  /** A string without capitals is its own lower-case form. */
  lemma LowerOfNoUpper(s: string)
    requires NoUpper(s)
    ensures Lower(s) == s
  {
  }
}
