/** Orderings used by the stores: a newest-first sort by a timestamp key
    (the comparator `(a, b) => b.timestamp - a.timestamp` and the query
    option `sort({ createdAt: -1 })`), reversal, and `Array.prototype.slice`. */
module Sorting {

  /** Keys never increase along `s`: newest first. */
  ghost predicate NewestFirst<T>(s: seq<T>, key: T -> int) {
    forall i, j :: 0 <= i < j < |s| ==> key(s[i]) >= key(s[j])
  }

  /** Keys never decrease along `s`: oldest first. */
  ghost predicate OldestFirst<T>(s: seq<T>, key: T -> int) {
    forall i, j :: 0 <= i < j < |s| ==> key(s[i]) <= key(s[j])
  }

  /** Places `x` before the first element of `s` that is not newer than it,
      so `x` stays ahead of later elements with the same key. */
  function Insert<T>(x: T, s: seq<T>, key: T -> int): (r: seq<T>)
    ensures |r| == |s| + 1
    ensures multiset(r) == multiset(s) + multiset{x}
  {
    if s == [] || key(s[0]) <= key(x) then [x] + s
    else
      assert s == [s[0]] + s[1..];
      [s[0]] + Insert(x, s[1..], key)
  }

  /** A stable newest-first sort (an insertion sort): the same elements,
      reordered by decreasing key. */
  function SortNewestFirst<T>(s: seq<T>, key: T -> int): (r: seq<T>)
    ensures |r| == |s|
    ensures multiset(r) == multiset(s)
  {
    if s == [] then []
    else
      assert s == [s[0]] + s[1..];
      Insert(s[0], SortNewestFirst(s[1..], key), key)
  }

  lemma {:induction false} InsertBounded<T>(x: T, s: seq<T>, key: T -> int, b: int)
    requires key(x) <= b
    requires forall i :: 0 <= i < |s| ==> key(s[i]) <= b
    ensures forall i :: 0 <= i < |s| + 1 ==> key(Insert(x, s, key)[i]) <= b
  {
    if s != [] && key(s[0]) > key(x) {
      InsertBounded(x, s[1..], key, b);
    }
  }

  lemma {:induction false} InsertNewestFirst<T>(x: T, s: seq<T>, key: T -> int)
    requires NewestFirst(s, key)
    ensures NewestFirst(Insert(x, s, key), key)
  {
    if s != [] && key(s[0]) > key(x) {
      var tail := Insert(x, s[1..], key);
      InsertNewestFirst(x, s[1..], key);
      InsertBounded(x, s[1..], key, key(s[0]));
      var r := [s[0]] + tail;
      assert r == Insert(x, s, key);
      forall i, j | 0 <= i < j < |r| ensures key(r[i]) >= key(r[j]) {
        if i == 0 { assert r[j] == tail[j - 1]; } else { assert r[i] == tail[i - 1] && r[j] == tail[j - 1]; }
      }
    }
  }

  /** The sort's result is ordered newest first. */
  lemma {:induction false} SortIsNewestFirst<T>(s: seq<T>, key: T -> int)
    ensures NewestFirst(SortNewestFirst(s, key), key)
  {
    if s != [] {
      SortIsNewestFirst(s[1..], key);
      InsertNewestFirst(s[0], SortNewestFirst(s[1..], key), key);
    }
  }

  /** A prefix of a newest-first sequence holds its newest elements: every
      element outside the prefix is no newer than any element inside it. */
  lemma PrefixHoldsNewest<T>(s: seq<T>, k: nat, key: T -> int)
    requires NewestFirst(s, key) && k <= |s|
    ensures multiset(s[..k]) <= multiset(s)
    ensures forall m :: m in multiset(s) - multiset(s[..k]) ==>
      forall i :: 0 <= i < k ==> key(m) <= key(s[i])
  {
    assert s == s[..k] + s[k..];
    assert multiset(s) == multiset(s[..k]) + multiset(s[k..]);
    forall m | m in multiset(s) - multiset(s[..k]) ensures forall i :: 0 <= i < k ==> key(m) <= key(s[i]) {
      assert m in multiset(s[k..]);
      var j :| k <= j < |s| && s[j] == m;
    }
  }

  /** A slice takes its elements from the sequence. */
  lemma SliceWithin<T>(s: seq<T>, a: nat, b: nat)
    requires a <= b <= |s|
    ensures multiset(s[a..b]) <= multiset(s)
  {
    assert s == s[..a] + s[a..b] + s[b..];
    assert multiset(s) == multiset(s[..a]) + multiset(s[a..b]) + multiset(s[b..]);
  }

  /** Any slice of a newest-first sequence is newest first and takes its
      elements from the sequence. */
  lemma SliceNewestFirst<T>(s: seq<T>, a: nat, b: nat, key: T -> int)
    requires NewestFirst(s, key) && a <= b <= |s|
    ensures NewestFirst(s[a..b], key)
    ensures multiset(s[a..b]) <= multiset(s)
  {
    SliceWithin(s, a, b);
  }

  /** `Array.prototype.reverse`. */
  function Reverse<T>(s: seq<T>): (r: seq<T>)
    ensures |r| == |s|
    ensures forall i :: 0 <= i < |s| ==> r[i] == s[|s| - 1 - i]
  {
    if s == [] then [] else Reverse(s[1..]) + [s[0]]
  }

  lemma ReverseMultiset<T>(s: seq<T>)
    ensures multiset(Reverse(s)) == multiset(s)
  {
    if s != [] {
      ReverseMultiset(s[1..]);
      assert s == [s[0]] + s[1..];
    }
  }

  /** Reversing a newest-first sequence gives an oldest-first one. */
  lemma ReverseOldestFirst<T>(s: seq<T>, key: T -> int)
    requires NewestFirst(s, key)
    ensures OldestFirst(Reverse(s), key)
  {
  }

  /** `skip(n)`: the elements past the first `n`. */
  function DropUpTo<T>(s: seq<T>, n: nat): (r: seq<T>)
    ensures |r| == if n <= |s| then |s| - n else 0
  {
    if n <= |s| then s[n..] else []
  }

  /** `limit(n)`: at most `n` elements, where 0 means no limit. */
  function TakeUpTo<T>(s: seq<T>, n: nat): (r: seq<T>)
    ensures |r| == if n == 0 || n >= |s| then |s| else n
    ensures r == s[..|r|]
  {
    if n == 0 || n >= |s| then s else s[..n]
  }

  /** A page of a newest-first query, turned oldest first: sort newest
      first, skip `skip`, keep at most `limit` (0 for all), reverse. */
  function NewestPage<T>(s: seq<T>, key: T -> int, skip: nat, limit: nat): seq<T> {
    Reverse(TakeUpTo(DropUpTo(SortNewestFirst(s, key), skip), limit))
  }

  /** A page holds min(limit, what is left past `skip`) of the elements. */
  lemma NewestPageLength<T>(s: seq<T>, key: T -> int, skip: nat, limit: nat)
    ensures var left := if skip <= |s| then |s| - skip else 0;
      |NewestPage(s, key, skip, limit)| == if limit == 0 || limit >= left then left else limit
  {
  }

  /** The part of a sorted query a page keeps is one slice of it. */
  lemma WindowIsSlice<T>(sorted: seq<T>, skip: nat, limit: nat) returns (a: nat, b: nat)
    ensures a <= b <= |sorted|
    ensures TakeUpTo(DropUpTo(sorted, skip), limit) == sorted[a..b]
  {
    a := if skip <= |sorted| then skip else |sorted|;
    var window := TakeUpTo(DropUpTo(sorted, skip), limit);
    b := a + |window|;
    assert window == sorted[a..b];
  }

  /** A page is oldest first. */
  lemma NewestPageOrder<T>(s: seq<T>, key: T -> int, skip: nat, limit: nat)
    ensures OldestFirst(NewestPage(s, key, skip, limit), key)
  {
    var sorted := SortNewestFirst(s, key);
    SortIsNewestFirst(s, key);
    var a, b := WindowIsSlice(sorted, skip, limit);
    SliceNewestFirst(sorted, a, b, key);
    ReverseOldestFirst(sorted[a..b], key);
  }

  /** A page takes its elements from the queried ones. */
  lemma NewestPageFrom<T>(s: seq<T>, key: T -> int, skip: nat, limit: nat)
    ensures multiset(NewestPage(s, key, skip, limit)) <= multiset(s)
  {
    var sorted := SortNewestFirst(s, key);
    var a, b := WindowIsSlice(sorted, skip, limit);
    ReversedSliceWithin(sorted, a, b);
  }

  /** A reversed slice takes its elements from the sequence. */
  lemma ReversedSliceWithin<T>(s: seq<T>, a: nat, b: nat)
    requires a <= b <= |s|
    ensures multiset(Reverse(s[a..b])) <= multiset(s)
  {
    SliceWithin(s, a, b);
    ReverseMultiset(s[a..b]);
  }

  /** One element past a newest-first prefix is no newer than one in it. */
  lemma OutsidePrefixNoNewer<T>(s: seq<T>, k: nat, key: T -> int, m: T, j: nat)
    requires NewestFirst(s, key) && j < k <= |s|
    requires m in multiset(s) - multiset(s[..k])
    ensures key(m) <= key(s[j])
  {
    assert s == s[..k] + s[k..];
    assert multiset(s) == multiset(s[..k]) + multiset(s[k..]);
    var rest := s[k..];
    assert m in multiset(rest);
    var y :| 0 <= y < |rest| && rest[y] == m;
    assert s[k + y] == m;
  }

  /** The reverse of a prefix of a newest-first sequence still holds its
      newest elements. */
  lemma ReversedPrefixHoldsNewest<T>(s: seq<T>, k: nat, key: T -> int)
    requires NewestFirst(s, key) && k <= |s|
    ensures forall m, i :: m in multiset(s) - multiset(Reverse(s[..k])) && 0 <= i < k ==>
      key(m) <= key(Reverse(s[..k])[i])
  {
    var window := s[..k];
    ReverseMultiset(window);
    forall m, i | m in multiset(s) - multiset(Reverse(window)) && 0 <= i < k
      ensures key(m) <= key(Reverse(window)[i])
    {
      OutsidePrefixNoNewer(s, k, key, m, k - 1 - i);
      assert Reverse(window)[i] == s[k - 1 - i];
    }
  }

  /** The first page holds the newest elements: one left off it is no
      newer than any element on it. */
  lemma NewestPageFirst<T>(s: seq<T>, key: T -> int, limit: nat)
    ensures forall m, i :: m in multiset(s) - multiset(NewestPage(s, key, 0, limit)) &&
                           0 <= i < |NewestPage(s, key, 0, limit)| ==>
      key(m) <= key(NewestPage(s, key, 0, limit)[i])
  {
    var sorted := SortNewestFirst(s, key);
    SortIsNewestFirst(s, key);
    var window := TakeUpTo(sorted, limit);
    assert DropUpTo(sorted, 0) == sorted;
    assert window == sorted[..|window|];
    assert NewestPage(s, key, 0, limit) == Reverse(sorted[..|window|]);
    ReversedPrefixHoldsNewest(sorted, |window|, key);
  }

  /** The end index `s.slice(0, end)` stops at: a negative `end` counts
      back from the length, and both are clamped to `[0, |s|]`. */
  function SliceEnd(len: nat, end: int): (k: nat)
    ensures k <= len
  {
    if end >= 0 then (if end <= len then end else len)
    else if len + end >= 0 then len + end else 0
  }

  /** `s.slice(0, end)`. */
  function SliceTo<T>(s: seq<T>, end: int): seq<T> {
    s[..SliceEnd(|s|, end)]
  }
}
