/** Order-preserving selection of the elements of a sequence that carry a
    given key: the "records naming X, in file order" that the loader's
    grouping and sorting steps are specified with. */
module Sequences {

  /** The elements of s whose key is k, in their order in s. */
  function Matching<T, K(==)>(s: seq<T>, key: T -> K, k: K): (r: seq<T>)
    ensures |r| <= |s|
  {
    if s == [] then []
    else
      var n := |s| - 1;
      Matching(s[..n], key, k) + (if key(s[n]) == k then [s[n]] else [])
  }

  /** Matching keeps exactly the elements with key k, each as often as in s. */
  lemma {:induction false} MatchingMultiset<T, K>(s: seq<T>, key: T -> K, k: K)
    ensures forall x :: multiset(Matching(s, key, k))[x] == if key(x) == k then multiset(s)[x] else 0
  {
    if s != [] {
      var n := |s| - 1;
      assert s == s[..n] + [s[n]];
      MatchingMultiset(s[..n], key, k);
    }
  }

  /** Selecting from a concatenation selects from each part. */
  lemma {:induction false} MatchingAppend<T, K>(a: seq<T>, b: seq<T>, key: T -> K, k: K)
    ensures Matching(a + b, key, k) == Matching(a, key, k) + Matching(b, key, k)
    decreases |b|
  {
    if b != [] {
      var n := |b| - 1;
      var ab := a + b;
      assert ab[..|ab| - 1] == a + b[..n];
      assert ab[|ab| - 1] == b[n];
      MatchingAppend(a, b[..n], key, k);
    } else {
      assert a + b == a;
    }
  }
}
