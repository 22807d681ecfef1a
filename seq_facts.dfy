/** Facts about sequences without repeated elements, used for "one node per key". */
module SeqFacts {

  predicate Distinct<T(==)>(s: seq<T>)
  {
    forall i, j :: 0 <= i < j < |s| ==> s[i] != s[j]
  }

  /** In a sequence without repeats, every value occurs at most once. */
  lemma {:induction false} DistinctOccursOnce<T>(s: seq<T>, x: T)
    requires Distinct(s)
    ensures multiset(s)[x] <= 1
  {
    if |s| > 0 {
      assert s == [s[0]] + s[1..];
      assert Distinct(s[1..]);
      DistinctOccursOnce(s[1..], x);
      if x == s[0] {
        assert x !in s[1..];
      }
    }
  }

  /** A value at two positions occurs at least twice. */
  lemma RepeatOccursTwice<T>(s: seq<T>, i: nat, j: nat)
    requires i < j < |s| && s[i] == s[j]
    ensures multiset(s)[s[i]] >= 2
  {
    assert s == s[..j] + [s[j]] + s[j + 1..];
    assert s[i] in s[..j];
  }

  /** A permutation of a sequence without repeats has no repeats. */
  lemma PermutationDistinct<T>(s: seq<T>, t: seq<T>)
    requires multiset(s) == multiset(t) && Distinct(s)
    ensures Distinct(t)
  {
    forall i, j | 0 <= i < j < |t|
      ensures t[i] != t[j]
    {
      if t[i] == t[j] {
        RepeatOccursTwice(t, i, j);
        DistinctOccursOnce(s, t[i]);
      }
    }
  }

  /** Dropping the head of the first `k + 1` elements is taking `k` after the head. */
  lemma TakeThenDrop<T>(xs: seq<T>, k: nat)
    requires k < |xs|
    ensures xs[..k + 1][1..] == xs[1..][..k]
  {
    assert xs[..k + 1][1..] == xs[1..k + 1];
    assert xs[1..][..k] == xs[1..k + 1];
  }

  lemma AppendAssoc<T>(a: seq<T>, b: seq<T>, c: seq<T>)
    ensures (a + b) + c == a + (b + c)
  {
  }
}
