/**
 * Sorting a list by a "may come before" relation: JavaScript's `Array.prototype.sort` with a
 * consistent comparator, and a database `order by`. The result is ordered and is a
 * permutation of the input.
 */
module Sorting {

  /** Any two values are comparable. */
  ghost predicate Total<T(!new)>(le: (T, T) -> bool) {
    forall a, b :: le(a, b) || le(b, a)
  }

  ghost predicate Transitive<T(!new)>(le: (T, T) -> bool) {
    forall a, b, c :: le(a, b) && le(b, c) ==> le(a, c)
  }

  /** Every element may come before every later one. */
  predicate SortedBy<T>(s: seq<T>, le: (T, T) -> bool) {
    forall i, j :: 0 <= i < j < |s| ==> le(s[i], s[j])
  }

  /** `a` may come before every element of `s`. */
  predicate PrecedesAll<T>(a: T, s: seq<T>, le: (T, T) -> bool) {
    forall k :: 0 <= k < |s| ==> le(a, s[k])
  }

  /** Whatever precedes `x` and all of `t` precedes any rearrangement of `t` with `x` added. */
  lemma PrecedesPermutation<T>(a: T, x: T, t: seq<T>, r: seq<T>, le: (T, T) -> bool)
    requires PrecedesAll(a, t, le) && le(a, x)
    requires multiset(r) == multiset(t) + multiset{x}
    ensures PrecedesAll(a, r, le)
  {
    forall k | 0 <= k < |r| ensures le(a, r[k]) {
      assert r[k] in multiset(r);
      if r[k] != x {
        assert r[k] in multiset(t);
      }
    }
  }

  /** Insert `x` into a sorted list, ahead of every element it may precede. */
  function Insert<T(!new)>(x: T, s: seq<T>, le: (T, T) -> bool): (r: seq<T>)
    requires Total(le) && Transitive(le) && SortedBy(s, le)
    ensures SortedBy(r, le)
    ensures multiset(r) == multiset(s) + multiset{x}
    decreases |s|
  {
    if s == [] || le(x, s[0]) then [x] + s
    else
      var rest := Insert(x, s[1..], le);
      PrecedesPermutation(s[0], x, s[1..], rest, le);
      assert s == [s[0]] + s[1..];
      [s[0]] + rest
  }

  /** Insertion sort. */
  function Sort<T(!new)>(s: seq<T>, le: (T, T) -> bool): (r: seq<T>)
    requires Total(le) && Transitive(le)
    ensures SortedBy(r, le)
    ensures multiset(r) == multiset(s)
    decreases |s|
  {
    if s == [] then []
    else
      assert s == [s[0]] + s[1..];
      Insert(s[0], Sort(s[1..], le), le)
  }
}
