/** The few functions of Go's strings package that the edit tool is written with. */
module Strings {
  import opened Utf8

  predicate Occurs(s: bytes, sub: bytes, i: int) { 0 <= i && i + |sub| <= |s| && s[i..i + |sub|] == sub }

  /** strings.Index: the first occurrence, or -1. */
  function Index(s: bytes, sub: bytes): (i: int)
    ensures i == -1 || Occurs(s, sub, i)
    ensures forall k :: Occurs(s, sub, k) ==> 0 <= i <= k
  {
    IndexFrom(s, sub, 0)
  }

  function IndexFrom(s: bytes, sub: bytes, from: nat): (i: int)
    ensures i == -1 || (from <= i && Occurs(s, sub, i))
    ensures forall k :: from <= k && Occurs(s, sub, k) ==> 0 <= i <= k
    decreases |s| - from
  {
    if Occurs(s, sub, from) then from else if from >= |s| then -1 else IndexFrom(s, sub, from + 1)
  }

  function HasPrefix(s: bytes, p: bytes): bool { |p| <= |s| && s[..|p|] == p }

  /** strings.ReplaceAll, of a text that is not empty. */
  function ReplaceAll(s: bytes, from: bytes, to: bytes): bytes
    requires from != []
  {
    if s == [] then []
    else if HasPrefix(s, from) then to + ReplaceAll(s[|from|..], from, to)
    else [s[0]] + ReplaceAll(s[1..], from, to)
  }

  /** strings.Count: occurrences that do not overlap, from the left. Of the empty text Go
      counts one more than there are runes, here one more than there are bytes: both are 1
      for an empty s and above 1 for any other. */
  function Count(s: bytes, sub: bytes): nat
    decreases |s|
  {
    if sub == [] then |s| + 1
    else
      var i := Index(s, sub);
      if i == -1 then 0 else 1 + Count(s[i + |sub|..], sub)
  }

  /** aa in aaa: it is there twice, and counted once. */
  lemma {:induction false} OverlapCountsOnce(s: bytes, sub: bytes)
    requires s == [97, 97, 97] && sub == [97, 97]
    ensures Occurs(s, sub, 0) && Occurs(s, sub, 1) && Count(s, sub) == 1
  {
    assert s[0..2] == sub && s[1..3] == sub;
    assert Index(s, sub) == 0;
    assert |s[2..]| == 1;
    assert Index(s[2..], sub) == -1;
  }

  lemma OccursBehind(s: bytes, cut: nat, sub: bytes, k: int)
    requires cut <= |s| && k >= 0
    ensures Occurs(s[cut..], sub, k) <==> Occurs(s, sub, cut + k)
  {
    if cut + k + |sub| <= |s| {
      assert s[cut..][k..k + |sub|] == s[cut + k..cut + k + |sub|];
    }
  }

  /** A text counts at most once exactly when every occurrence overlaps the first one. */
  lemma {:induction false} CountIsOneIff(s: bytes, sub: bytes)
    requires sub != []
    ensures Count(s, sub) <= 1 <==> forall k :: Occurs(s, sub, k) ==> k < Index(s, sub) + |sub|
  {
    hide Occurs, IndexFrom;
    var i := Index(s, sub);
    if i != -1 {
      var cut := i + |sub|;
      assert cut <= |s| by { OccursInside(s, sub, i); }
      var j := Index(s[cut..], sub);
      CountStep(s, sub);
      if j != -1 {
        OccursBehind(s, cut, sub, j);
      }
      forall k | cut <= k && Occurs(s, sub, k) ensures Occurs(s[cut..], sub, k - cut) {
        OccursBehind(s, cut, sub, k - cut);
      }
    }
  }

  lemma OccursInside(s: bytes, sub: bytes, i: int)
    requires Occurs(s, sub, i)
    ensures 0 <= i && i + |sub| <= |s|
  {
  }

  lemma CountStep(s: bytes, sub: bytes)
    requires sub != [] && Index(s, sub) != -1
    ensures Index(s, sub) + |sub| <= |s|
    ensures Count(s, sub) <= 1 <==> Index(s[Index(s, sub) + |sub|..], sub) == -1
  {
  }
}
