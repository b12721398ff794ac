/** LINQ's `Where` and `OrderByDescending` as functions on sequences.
    `OrderByDescending` is a stable sort; SortDesc is an insertion sort that
    keeps equal keys in input order, and the lemmas below prove that it sorts,
    permutes and is stable. */
module Seqs {

  /** `s.Where(p)`: the elements satisfying `p`, in their original order. */
  function Filter<T>(s: seq<T>, p: T -> bool): (r: seq<T>)
    ensures |r| <= |s|
    ensures forall i :: 0 <= i < |r| ==> p(r[i])
    ensures multiset(r) <= multiset(s)
    ensures forall x :: x in multiset(r) ==> p(x)
    ensures forall x :: x in multiset(s) && p(x) ==> multiset(r)[x] == multiset(s)[x]
  {
    if s == [] then []
    else
      assert s == [s[0]] + s[1..];
      if p(s[0]) then [s[0]] + Filter(s[1..], p) else Filter(s[1..], p)
  }

  /** Membership in a filtered sequence, in both directions. */
  lemma FilterMembership<T>(s: seq<T>, p: T -> bool, x: T)
    ensures x in Filter(s, p) <==> x in s && p(x)
  {
    assert x in Filter(s, p) <==> x in multiset(Filter(s, p));
    assert x in s <==> x in multiset(s);
  }

  /** Filtering with a predicate that holds of every element changes nothing. */
  lemma {:induction false} FilterAll<T>(s: seq<T>, p: T -> bool)
    requires forall i :: 0 <= i < |s| ==> p(s[i])
    ensures Filter(s, p) == s
  {
    if s != [] {
      FilterAll(s[1..], p);
    }
  }

  ghost predicate SortedDesc<T>(s: seq<T>, key: T -> int) {
    forall i, j :: 0 <= i < j < |s| ==> key(s[i]) >= key(s[j])
  }

  /** Puts `x` in front of the first element whose key is not greater than its
      own, so that `x` precedes every element with an equal key. */
  function Insert<T>(x: T, s: seq<T>, key: T -> int): (r: seq<T>)
    ensures multiset(r) == multiset(s) + multiset{x}
    ensures |r| == |s| + 1
  {
    if s == [] || key(s[0]) <= key(x) then [x] + s
    else
      assert s == [s[0]] + s[1..];
      [s[0]] + Insert(x, s[1..], key)
  }

  /** Inserting into a sorted sequence keeps it sorted. */
  lemma {:induction false} InsertSorted<T>(x: T, s: seq<T>, key: T -> int)
    requires SortedDesc(s, key)
    ensures SortedDesc(Insert(x, s, key), key)
  {
    if s != [] && key(s[0]) > key(x) {
      var t := s[1..];
      assert SortedDesc(t, key);
      InsertSorted(x, t, key);
      var u := Insert(x, t, key);
      forall j | 0 <= j < |u|
        ensures key(u[j]) <= key(s[0])
      {
        assert u[j] in multiset(u);
        if u[j] != x {
          assert u[j] in multiset(t);
          assert u[j] in s;
          HeadIsLargest(s, key, u[j]);
        }
      }
      assert Insert(x, s, key) == [s[0]] + u;
    }
  }

  lemma MultisetOfCons<T>(s: seq<T>)
    requires s != []
    ensures multiset(s) == multiset{s[0]} + multiset(s[1..])
  {
    assert s == [s[0]] + s[1..];
  }

  /** `s.OrderByDescending(key)`. */
  function SortDesc<T>(s: seq<T>, key: T -> int): (r: seq<T>)
    ensures multiset(r) == multiset(s)
    ensures |r| == |s|
    ensures SortedDesc(r, key)
  {
    if s == [] then []
    else
      var t := SortDesc(s[1..], key);
      InsertSorted(s[0], t, key);
      MultisetOfCons(s);
      Insert(s[0], t, key)
  }

  lemma SortDescMembership<T>(s: seq<T>, key: T -> int, x: T)
    ensures x in SortDesc(s, key) <==> x in s
  {
    assert x in SortDesc(s, key) <==> x in multiset(SortDesc(s, key));
    assert x in s <==> x in multiset(s);
  }

  /** Every element of a sequence sorted by descending key has a key no greater
      than the first one's. */
  lemma HeadIsLargest<T>(s: seq<T>, key: T -> int, x: T)
    requires SortedDesc(s, key) && x in s
    ensures key(x) <= key(s[0])
  {
    var i :| 0 <= i < |s| && s[i] == x;
    if i > 0 {
      assert key(s[0]) >= key(s[i]);
    }
  }

  /** How Filter unfolds on a sequence with a known first element. */
  lemma FilterCons<T>(x: T, s: seq<T>, p: T -> bool)
    ensures Filter([x] + s, p) == if p(x) then [x] + Filter(s, p) else Filter(s, p)
  {
    assert ([x] + s)[0] == x;
    assert ([x] + s)[1..] == s;
  }

  /** How Insert unfolds on a sequence whose first element has the larger key. */
  lemma InsertBehind<T>(x: T, y: T, s: seq<T>, key: T -> int)
    requires key(y) > key(x)
    ensures Insert(x, [y] + s, key) == [y] + Insert(x, s, key)
  {
    assert ([y] + s)[0] == y;
    assert ([y] + s)[1..] == s;
  }

  /** Filtering commutes with inserting into a sorted sequence. */
  lemma {:induction false} FilterInsert<T>(x: T, s: seq<T>, key: T -> int, p: T -> bool)
    requires SortedDesc(s, key)
    ensures Filter(Insert(x, s, key), p)
         == if p(x) then Insert(x, Filter(s, p), key) else Filter(s, p)
  {
    if s == [] {
      FilterCons(x, s, p);
    } else if key(s[0]) <= key(x) {
      FilterInsertFront(x, s, key, p);
    } else {
      var t := s[1..];
      assert s == [s[0]] + t;
      assert SortedDesc(t, key);
      FilterInsert(x, t, key, p);
      InsertBehind(x, s[0], t, key);
      FilterCons(s[0], Insert(x, t, key), p);
      FilterCons(s[0], t, p);
      if p(s[0]) && p(x) {
        InsertBehind(x, s[0], Filter(t, p), key);
      }
    }
  }

  /** The first element kept by a filter of a sorted sequence has a key no
      greater than the sequence's first element. */
  lemma FilterHeadBounded<T>(s: seq<T>, key: T -> int, p: T -> bool)
    requires SortedDesc(s, key) && s != [] && Filter(s, p) != []
    ensures key(Filter(s, p)[0]) <= key(s[0])
  {
    var f := Filter(s, p);
    FilterMembership(s, p, f[0]);
    HeadIsLargest(s, key, f[0]);
  }

  /** Inserting an element whose key is at least the first one's puts it in
      front. */
  lemma InsertFront<T>(x: T, s: seq<T>, key: T -> int)
    requires s == [] || key(s[0]) <= key(x)
    ensures Insert(x, s, key) == [x] + s
  {
  }

  /** The case of FilterInsert where `x` goes in front. */
  lemma FilterInsertFront<T>(x: T, s: seq<T>, key: T -> int, p: T -> bool)
    requires SortedDesc(s, key) && s != [] && key(s[0]) <= key(x)
    ensures Filter(Insert(x, s, key), p)
         == if p(x) then Insert(x, Filter(s, p), key) else Filter(s, p)
  {
    InsertFront(x, s, key);
    FilterCons(x, s, p);
    var f := Filter(s, p);
    if p(x) {
      if f != [] {
        FilterHeadBounded(s, key, p);
      }
      InsertFront(x, f, key);
    }
  }

  /** Filtering before or after a stable sort gives the same sequence. */
  lemma {:induction false} FilterSort<T>(s: seq<T>, key: T -> int, p: T -> bool)
    ensures Filter(SortDesc(s, key), p) == SortDesc(Filter(s, p), key)
  {
    if s != [] {
      var t := s[1..];
      FilterSort(t, key, p);
      FilterInsert(s[0], SortDesc(t, key), key, p);
      if p(s[0]) {
        assert Filter(s, p) == [s[0]] + Filter(t, p);
        assert ([s[0]] + Filter(t, p))[1..] == Filter(t, p);
      }
    }
  }

  /** A sequence that is already sorted comes back unchanged. */
  lemma {:induction false} SortSorted<T>(s: seq<T>, key: T -> int)
    requires SortedDesc(s, key)
    ensures SortDesc(s, key) == s
  {
    if s != [] {
      var t := s[1..];
      assert SortedDesc(t, key);
      SortSorted(t, key);
      assert ([s[0]] + t) == s;
    }
  }

  /** The test "has key k". */
  function KeyIs<T>(key: T -> int, k: int): T -> bool {
    x => key(x) == k
  }

  /** Stability: the elements that share one key come out in input order. */
  lemma Stable<T>(s: seq<T>, key: T -> int, k: int)
    ensures Filter(SortDesc(s, key), KeyIs(key, k)) == Filter(s, KeyIs(key, k))
  {
    var p := KeyIs(key, k);
    FilterSort(s, key, p);
    SortSorted(Filter(s, p), key);
  }

  /** Sorting twice is sorting once. */
  lemma SortIdempotent<T>(s: seq<T>, key: T -> int)
    ensures SortDesc(SortDesc(s, key), key) == SortDesc(s, key)
  {
    SortSorted(SortDesc(s, key), key);
  }
}
