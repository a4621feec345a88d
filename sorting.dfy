/** A stable sort by an integer key: the ordering that the loader obtains
    from the library's stable `sort_by` on each trip's stop times. */
module StableSort {
  import opened Sequences

  predicate SortedBy<T>(s: seq<T>, key: T -> int) {
    forall i, j :: 0 <= i < j < |s| ==> key(s[i]) <= key(s[j])
  }

  /** Inserts x into s in front of the first element whose key is strictly
      greater, so x ends up after every element whose key equals its own. */
  function Insert<T>(x: T, s: seq<T>, key: T -> int): (r: seq<T>)
    ensures multiset(r) == multiset(s) + multiset{x}
    ensures |r| == |s| + 1
  {
    if s == [] then [x]
    else if key(x) < key(s[0]) then [x] + s
    else
      assert s == [s[0]] + s[1..];
      [s[0]] + Insert(x, s[1..], key)
  }

  /** Sorts s by key, keeping elements with equal keys in their order in s. */
  function SortBy<T>(s: seq<T>, key: T -> int): (r: seq<T>)
    ensures multiset(r) == multiset(s)
    ensures |r| == |s|
  {
    if s == [] then []
    else
      var n := |s| - 1;
      assert s == s[..n] + [s[n]];
      Insert(s[n], SortBy(s[..n], key), key)
  }

  lemma {:induction false} InsertSorted<T>(x: T, s: seq<T>, key: T -> int)
    requires SortedBy(s, key)
    ensures SortedBy(Insert(x, s, key), key)
  {
    if s == [] {
      assert Insert(x, s, key) == [x];
    } else if key(x) < key(s[0]) {
      forall i | 0 <= i < |s| ensures key(x) <= key(s[i]) {
        assert key(s[0]) <= key(s[i]);
      }
      ConsSorted(x, s, key);
    } else {
      var r := Insert(x, s[1..], key);
      InsertSorted(x, s[1..], key);
      InsertKeysFrom(x, s[1..], key, key(s[0]));
      ConsSorted(s[0], r, key);
      assert Insert(x, s, key) == [s[0]] + r;
    }
  }

  /** Inserting keeps a lower bound that x and every element of s respect. */
  lemma InsertKeysFrom<T>(x: T, s: seq<T>, key: T -> int, lo: int)
    requires lo <= key(x) && forall i :: 0 <= i < |s| ==> lo <= key(s[i])
    ensures forall i :: 0 <= i < |Insert(x, s, key)| ==> lo <= key(Insert(x, s, key)[i])
  {
    var r := Insert(x, s, key);
    forall i | 0 <= i < |r| ensures lo <= key(r[i]) {
      assert r[i] in multiset(r);
      if r[i] != x {
        assert r[i] in multiset(s);
        var j :| 0 <= j < |s| && s[j] == r[i];
      }
    }
  }

  /** A sorted sequence stays sorted behind an element no greater than any of it. */
  lemma ConsSorted<T>(y: T, s: seq<T>, key: T -> int)
    requires SortedBy(s, key) && forall i :: 0 <= i < |s| ==> key(y) <= key(s[i])
    ensures SortedBy([y] + s, key)
  {
    forall i, j | 0 <= i < j < |[y] + s|
      ensures key(([y] + s)[i]) <= key(([y] + s)[j])
    {
      assert ([y] + s)[j] == s[j - 1];
      if i > 0 {
        assert ([y] + s)[i] == s[i - 1];
      }
    }
  }

  /** SortBy returns its input in non-decreasing key order. */
  lemma {:induction false} SortBySorted<T>(s: seq<T>, key: T -> int)
    ensures SortedBy(SortBy(s, key), key)
  {
    if s != [] {
      var n := |s| - 1;
      SortBySorted(s[..n], key);
      InsertSorted(s[n], SortBy(s[..n], key), key);
    }
  }

  lemma {:induction false} MatchingCons<T>(x: T, s: seq<T>, key: T -> int, k: int)
    ensures Matching([x] + s, key, k) == (if key(x) == k then [x] else []) + Matching(s, key, k)
  {
    MatchingAppend([x], s, key, k);
    assert [x][..0] == [];
  }

  lemma {:induction false} MatchingAbsent<T>(s: seq<T>, key: T -> int, k: int)
    requires forall i :: 0 <= i < |s| ==> key(s[i]) != k
    ensures Matching(s, key, k) == []
  {
    if s != [] {
      MatchingAbsent(s[..|s| - 1], key, k);
    }
  }

  /** Inserting into a sorted sequence puts x after every element with its key. */
  lemma {:induction false} InsertMatching<T>(x: T, s: seq<T>, key: T -> int, k: int)
    requires SortedBy(s, key)
    ensures Matching(Insert(x, s, key), key, k)
         == Matching(s, key, k) + (if key(x) == k then [x] else [])
  {
    if s == [] {
      MatchingCons(x, s, key, k);
      assert [x] + s == [x] == Insert(x, s, key);
    } else if key(x) < key(s[0]) {
      InsertFront(x, s, key, k);
    } else {
      assert SortedBy(s[1..], key);
      InsertMatching(x, s[1..], key, k);
      InsertBehind(x, s, key, k);
    }
  }

  lemma InsertBehind<T>(x: T, s: seq<T>, key: T -> int, k: int)
    requires s != [] && key(x) >= key(s[0])
    requires Matching(Insert(x, s[1..], key), key, k)
          == Matching(s[1..], key, k) + (if key(x) == k then [x] else [])
    ensures Matching(Insert(x, s, key), key, k)
         == Matching(s, key, k) + (if key(x) == k then [x] else [])
  {
    MatchingInsertBehind(x, s, key, k);
    MatchingFirst(s, key, k);
    AppendAssociative(if key(s[0]) == k then [s[0]] else [], Matching(s[1..], key, k), if key(x) == k then [x] else []);
  }

  /** Selecting from an insertion behind the first element. */
  lemma MatchingInsertBehind<T>(x: T, s: seq<T>, key: T -> int, k: int)
    requires s != [] && key(x) >= key(s[0])
    ensures Matching(Insert(x, s, key), key, k)
         == (if key(s[0]) == k then [s[0]] else []) + Matching(Insert(x, s[1..], key), key, k)
  {
    assert Insert(x, s, key) == [s[0]] + Insert(x, s[1..], key);
    MatchingCons(s[0], Insert(x, s[1..], key), key, k);
  }

  /** Selecting from a non-empty sequence, first element first. */
  lemma MatchingFirst<T>(s: seq<T>, key: T -> int, k: int)
    requires s != []
    ensures Matching(s, key, k) == (if key(s[0]) == k then [s[0]] else []) + Matching(s[1..], key, k)
  {
    assert [s[0]] + s[1..] == s;
    MatchingCons(s[0], s[1..], key, k);
  }

  lemma AppendAssociative<T>(a: seq<T>, b: seq<T>, c: seq<T>)
    ensures a + (b + c) == (a + b) + c
  {
  }

  lemma InsertFront<T>(x: T, s: seq<T>, key: T -> int, k: int)
    requires SortedBy(s, key) && s != [] && key(x) < key(s[0])
    ensures Matching([x] + s, key, k) == Matching(s, key, k) + (if key(x) == k then [x] else [])
  {
    MatchingCons(x, s, key, k);
    if key(x) == k {
      forall i | 0 <= i < |s|
        ensures key(s[i]) != k
      {
        assert key(s[0]) <= key(s[i]);
      }
      MatchingAbsent(s, key, k);
    }
  }

  /** Stability: among the elements of any one key, SortBy keeps the order of s. */
  lemma {:induction false} SortByStable<T>(s: seq<T>, key: T -> int, k: int)
    ensures Matching(SortBy(s, key), key, k) == Matching(s, key, k)
  {
    if s != [] {
      var n := |s| - 1;
      SortByStable(s[..n], key, k);
      SortBySorted(s[..n], key);
      InsertMatching(s[n], SortBy(s[..n], key), key, k);
    }
  }
}
