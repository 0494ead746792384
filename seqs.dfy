/** Searches and removals on Python lists: `list.index`, a search from the end as the
  * reversed `for ... else` loops do it, and `del l[i]`. */
module Seqs {
  /** The index of the first `x` in `s`, or -1 (`list.index` raising ValueError). */
  function IndexOf<T(==)>(s: seq<T>, x: T): (r: int)
    ensures -1 <= r < |s|
    ensures r == -1 <==> x !in s
    ensures r >= 0 ==> s[r] == x && x !in s[..r]
  {
    if |s| == 0 then -1
    else if s[0] == x then 0
    else
      var k := IndexOf(s[1..], x);
      if k == -1 then -1 else k + 1
  }

  /** The index of the last `x` in `s`, or -1. */
  function LastIndexOf<T(==)>(s: seq<T>, x: T): (r: int)
    ensures -1 <= r < |s|
    ensures r == -1 <==> x !in s
    ensures r >= 0 ==> s[r] == x && x !in s[r + 1..]
  {
    if |s| == 0 then -1
    else if s[|s| - 1] == x then |s| - 1
    else
      var k := LastIndexOf(s[..|s| - 1], x);
      assert s[k + 1..] == s[k + 1..|s| - 1] + [s[|s| - 1]] by {
        assert k + 1 <= |s| - 1;
      }
      k
  }

  /** A forward search that stopped at `i` found what `IndexOf` finds. */
  lemma IndexOfIs<T>(s: seq<T>, x: T, i: nat)
    requires i <= |s| && x !in s[..i] && (i < |s| ==> s[i] == x)
    ensures IndexOf(s, x) == if i == |s| then -1 else i
  {
    assert i == |s| ==> s[..i] == s;
  }

  /** A backward search that stopped at `i` found what `LastIndexOf` finds. */
  lemma LastIndexOfIs<T>(s: seq<T>, x: T, i: int)
    requires -1 <= i < |s| && x !in s[i + 1..] && (i >= 0 ==> s[i] == x)
    ensures LastIndexOf(s, x) == i
  {
    assert i == -1 ==> s[i + 1..] == s;
  }

  /** `del s[i]`. */
  function RemoveAt<T>(s: seq<T>, i: nat): (r: seq<T>)
    requires i < |s|
    ensures |r| == |s| - 1
    ensures forall k :: 0 <= k < i ==> r[k] == s[k]
    ensures forall k :: i <= k < |r| ==> r[k] == s[k + 1]
  {
    s[..i] + s[i + 1..]
  }

  /** Deleting one element takes exactly that element out of the multiset of elements. */
  lemma RemoveAtMultiset<T>(s: seq<T>, i: nat)
    requires i < |s|
    ensures multiset(RemoveAt(s, i)) + multiset{s[i]} == multiset(s)
  {
    var a, b := s[..i], s[i + 1..];
    assert s == a + [s[i]] + b;
    assert multiset(s) == multiset(a) + multiset{s[i]} + multiset(b);
    assert multiset(a + b) == multiset(a) + multiset(b);
  }

  /** No value occurs twice. */
  predicate Distinct<T(==)>(s: seq<T>)
  {
    forall j, k :: 0 <= j < k < |s| ==> s[j] != s[k]
  }

  /** In a list without repetitions, deleting the one occurrence of `x` removes `x`. */
  lemma RemoveDistinct<T>(s: seq<T>, i: nat)
    requires Distinct(s) && i < |s|
    ensures s[i] !in RemoveAt(s, i) && Distinct(RemoveAt(s, i))
  {
    var r := RemoveAt(s, i);
    forall k | 0 <= k < |r|
      ensures r[k] != s[i]
    {
      if k >= i {
        assert r[k] == s[k + 1];
      }
    }
  }

  /** Deleting the element at `i` keeps every other value and adds none. */
  lemma RemoveAtMembers<T>(s: seq<T>, i: nat)
    requires i < |s|
    ensures forall x :: x in RemoveAt(s, i) ==> x in s
    ensures forall x :: x in s && x != s[i] ==> x in RemoveAt(s, i)
  {
    assert s == s[..i] + [s[i]] + s[i + 1..];
  }
}
