/** Order-preserving selections from a sequence, as list comprehensions with a filter make them. */
module Sequences {
  /** `a` is `b` with some of its elements dropped, the others kept in order. */
  predicate IsSubsequence<T(==)>(a: seq<T>, b: seq<T>)
  {
    if a == [] then true
    else if b == [] then false
    else if a[0] == b[0] then IsSubsequence(a[1..], b[1..])
    else IsSubsequence(a, b[1..])
  }

  /** Dropping the head of the shorter sequence keeps it a subsequence. */
  lemma {:induction false} SubsequenceDropHead<T>(a: seq<T>, b: seq<T>)
    requires a != [] && IsSubsequence(a, b)
    ensures IsSubsequence(a[1..], b)
    decreases |b|, 2
  {
    if a[0] != b[0] {
      SubsequenceDropHead(a, b[1..]);
    }
    SubsequenceWiden(a[1..], b);
  }

  /** A subsequence of the tail of `b` is a subsequence of `b`. */
  lemma {:induction false} SubsequenceWiden<T>(c: seq<T>, b: seq<T>)
    requires b != [] && IsSubsequence(c, b[1..])
    ensures IsSubsequence(c, b)
    decreases |b|, 1
  {
    if c != [] && c[0] == b[0] {
      SubsequenceDropHead(c, b[1..]);
    }
  }

  /**
   * Appending to the longer sequence keeps a subsequence one, and appending
   * the same element to both keeps it too: a filter that runs from the front
   * may also be read from the back.
   */
  lemma {:induction false} SubsequenceExtend<T>(a: seq<T>, b: seq<T>, x: T)
    requires IsSubsequence(a, b)
    ensures IsSubsequence(a, b + [x])
    ensures IsSubsequence(a + [x], b + [x])
    decreases |b|
  {
    if b == [] {
      assert a == [];
      assert ([x] + [x])[1..] == [x];
    } else {
      assert (b + [x])[1..] == b[1..] + [x];
      if a == [] {
        SubsequenceExtend(a, b[1..], x);
        assert a + [x] == [x];
      } else if a[0] == b[0] {
        SubsequenceExtend(a[1..], b[1..], x);
        assert (a + [x])[1..] == a[1..] + [x];
      } else {
        SubsequenceExtend(a, b[1..], x);
      }
    }
  }
}
