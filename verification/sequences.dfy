/** Order-keeping selection from a sequence, as `Array.prototype.filter` does. */
module Sequences {

  /** `a` is `b` with some elements left out, order kept. */
  predicate SubsequenceOf<T(==)>(a: seq<T>, b: seq<T>)
    decreases |b|
  {
    a == [] || (b != [] && if a[0] == b[0] then SubsequenceOf(a[1..], b[1..]) else SubsequenceOf(a, b[1..]))
  }

  /** An element added at the end of `b` may be left out, or kept at the end of `a`. */
  lemma {:induction false} SnocSubsequence<T>(a: seq<T>, b: seq<T>, x: T)
    requires SubsequenceOf(a, b)
    ensures SubsequenceOf(a, b + [x])
    ensures SubsequenceOf(a + [x], b + [x])
    decreases |b|
  {
    if b == [] {
      assert a == [];
      assert ([x] + [])[1..] == [];
    } else {
      assert (b + [x])[1..] == b[1..] + [x];
      if a == [] {
        if x != b[0] {
          SnocSubsequence(a, b[1..], x);
        }
      } else {
        assert (a + [x])[1..] == a[1..] + [x];
        if a[0] == b[0] {
          SnocSubsequence(a[1..], b[1..], x);
        } else {
          SnocSubsequence(a, b[1..], x);
        }
      }
    }
  }
}
