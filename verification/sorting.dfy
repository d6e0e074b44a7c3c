/**
 * A stable insertion sort over sequences, parametrised by a "goes before or
 * ties" relation. It stands for `Array.prototype.sort` with a comparator, which
 * the ECMAScript standard requires to be stable.
 */
module Sorting {

  /** Every adjacent pair is in order. */
  predicate SortedBy<T>(s: seq<T>, before: (T, T) -> bool) {
    forall i :: 0 < i < |s| ==> before(s[i - 1], s[i])
  }

  /** The relation relates any two values one way or the other. */
  ghost predicate Total<T(!new)>(before: (T, T) -> bool) {
    forall a, b :: before(a, b) || before(b, a)
  }

  /** No two elements of `s` share a key. */
  predicate DistinctKeys<T, K(==)>(s: seq<T>, key: T -> K) {
    forall i, j :: 0 <= i < j < |s| ==> key(s[i]) != key(s[j])
  }

  /** Inserts `x` in front of the first element it may go before. */
  function Insert<T>(x: T, s: seq<T>, before: (T, T) -> bool): (r: seq<T>)
    ensures multiset(r) == multiset(s) + multiset{x}
    ensures |r| == |s| + 1
  {
    if |s| == 0 || before(x, s[0]) then [x] + s
    else
      assert s == [s[0]] + s[1..];
      [s[0]] + Insert(x, s[1..], before)
  }

  /** Sorts `s`; an element keeps its place relative to the ones it ties with. */
  function Sort<T>(s: seq<T>, before: (T, T) -> bool): (r: seq<T>)
    ensures multiset(r) == multiset(s)
    ensures |r| == |s|
  {
    if |s| == 0 then []
    else
      assert s == [s[0]] + s[1..];
      Insert(s[0], Sort(s[1..], before), before)
  }

  lemma {:induction false} InsertSorted<T(!new)>(x: T, s: seq<T>, before: (T, T) -> bool)
    requires Total(before)
    requires SortedBy(s, before)
    ensures SortedBy(Insert(x, s, before), before)
  {
    if |s| == 0 || before(x, s[0]) {
    } else {
      InsertSorted(x, s[1..], before);
      var t := Insert(x, s[1..], before);
      assert before(s[0], x);
      assert t[0] == x || (|s| > 1 && t[0] == s[1]) by {
        if |s| > 1 && !before(x, s[1]) {
          assert t == [s[1]] + Insert(x, s[2..], before);
        }
      }
      assert Insert(x, s, before) == [s[0]] + t;
    }
  }

  /** With a total relation the sort's output is in order. */
  lemma {:induction false} SortSorted<T(!new)>(s: seq<T>, before: (T, T) -> bool)
    requires Total(before)
    ensures SortedBy(Sort(s, before), before)
  {
    if |s| > 0 {
      SortSorted(s[1..], before);
      InsertSorted(s[0], Sort(s[1..], before), before);
    }
  }

  /** Sorting a sequence that is already in order returns it unchanged. */
  lemma {:induction false} SortOfSorted<T>(s: seq<T>, before: (T, T) -> bool)
    requires SortedBy(s, before)
    ensures Sort(s, before) == s
  {
    if |s| > 0 {
      assert SortedBy(s[1..], before);
      SortOfSorted(s[1..], before);
      assert s == [s[0]] + s[1..];
    }
  }

  lemma {:induction false} InsertDistinct<T, K>(x: T, s: seq<T>, before: (T, T) -> bool, key: T -> K)
    requires DistinctKeys(s, key)
    requires forall y :: y in s ==> key(y) != key(x)
    ensures DistinctKeys(Insert(x, s, before), key)
  {
    if |s| == 0 || before(x, s[0]) {
    } else {
      InsertDistinct(x, s[1..], before, key);
      var t := Insert(x, s[1..], before);
      forall y | y in t
        ensures key(y) != key(s[0])
      {
        assert y in multiset(t);
      }
      assert Insert(x, s, before) == [s[0]] + t;
    }
  }

  /** Sorting never makes two elements share a key. */
  lemma {:induction false} SortDistinct<T, K>(s: seq<T>, before: (T, T) -> bool, key: T -> K)
    requires DistinctKeys(s, key)
    ensures DistinctKeys(Sort(s, before), key)
  {
    if |s| > 0 {
      SortDistinct(s[1..], before, key);
      forall y | y in Sort(s[1..], before)
        ensures key(y) != key(s[0])
      {
        assert y in multiset(Sort(s[1..], before));
      }
      InsertDistinct(s[0], Sort(s[1..], before), before, key);
    }
  }

  /** The relation is a total order: total, antisymmetric and transitive. */
  ghost predicate TotalOrder<T(!new)>(before: (T, T) -> bool) {
    && Total(before)
    && (forall a, b :: before(a, b) && before(b, a) ==> a == b)
    && (forall a, b, c :: before(a, b) && before(b, c) ==> before(a, c))
  }

  /** In a sequence sorted by a transitive relation the first element goes before every element. */
  lemma {:induction false} SortedHeadFirst<T(!new)>(s: seq<T>, before: (T, T) -> bool, k: int)
    requires TotalOrder(before)
    requires SortedBy(s, before)
    requires 0 <= k < |s|
    ensures before(s[0], s[k])
    decreases k
  {
    if k > 0 {
      SortedHeadFirst(s, before, k - 1);
    }
  }

  /** Under a total order, two sorted arrangements of the same elements are the same sequence. */
  lemma {:induction false} SortedUnique<T(!new)>(s: seq<T>, t: seq<T>, before: (T, T) -> bool)
    requires TotalOrder(before)
    requires SortedBy(s, before) && SortedBy(t, before)
    requires multiset(s) == multiset(t)
    ensures s == t
    decreases |s|
  {
    assert |s| == |multiset(s)| == |t|;
    if |s| > 0 {
      assert s[0] in multiset(t);
      var ks :| 0 <= ks < |t| && t[ks] == s[0];
      assert t[0] in multiset(s);
      var kt :| 0 <= kt < |s| && s[kt] == t[0];
      SortedHeadFirst(t, before, ks);
      SortedHeadFirst(s, before, kt);
      assert s[0] == t[0];
      assert s == [s[0]] + s[1..] && t == [t[0]] + t[1..];
      assert multiset(s[1..]) == multiset(s) - multiset{s[0]};
      assert multiset(t[1..]) == multiset(t) - multiset{t[0]};
      SortedUnique(s[1..], t[1..], before);
    }
  }

  /** Under a total order the sort does not depend on the order of its input. */
  lemma SortPermutationInvariant<T(!new)>(s: seq<T>, t: seq<T>, before: (T, T) -> bool)
    requires TotalOrder(before)
    requires multiset(s) == multiset(t)
    ensures Sort(s, before) == Sort(t, before)
  {
    SortSorted(s, before);
    SortSorted(t, before);
    SortedUnique(Sort(s, before), Sort(t, before), before);
  }
}
