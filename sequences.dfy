/** Sequence vocabulary shared by the counting and filtering models. */
module Sequences {

  /** No element occurs twice in `s`. */
  predicate Distinct<T(==)>(s: seq<T>) {
    forall i, j :: 0 <= i < j < |s| ==> s[i] != s[j]
  }

  /** The position of the first occurrence of `x` in `s`. */
  function FirstIndex<T(==)>(s: seq<T>, x: T): (i: nat)
    requires x in s
    ensures i < |s| && s[i] == x
    ensures forall j :: 0 <= j < i ==> s[j] != x
  {
    if s[0] == x then 0 else 1 + FirstIndex(s[1..], x)
  }

  /** `a` is obtained from `b` by deleting elements, the rest kept in order. */
  predicate SubsequenceOf<T(==)>(a: seq<T>, b: seq<T>)
    decreases |b|
  {
    a == [] ||
    (b != [] &&
     ((a[|a| - 1] == b[|b| - 1] && SubsequenceOf(a[..|a| - 1], b[..|b| - 1]))
      || SubsequenceOf(a, b[..|b| - 1])))
  }

  /** The first occurrence of an element of `s` does not move when `t` is appended. */
  lemma FirstIndexAppend<T>(s: seq<T>, t: seq<T>, x: T)
    requires x in s
    ensures FirstIndex(s + t, x) == FirstIndex(s, x)
  {
    var a, b := FirstIndex(s, x), FirstIndex(s + t, x);
    assert (s + t)[a] == x;
  }

  /** A prefix of a subsequence of `b` is again a subsequence of `b`. */
  lemma {:induction false} PrefixOfSubsequence<T>(a: seq<T>, p: seq<T>, b: seq<T>)
    requires p <= a && SubsequenceOf(a, b)
    ensures SubsequenceOf(p, b)
    decreases |b|
  {
    if p == a || p == [] {
    } else {
      assert b != [];
      var a', b' := a[..|a| - 1], b[..|b| - 1];
      assert p <= a';
      if a[|a| - 1] == b[|b| - 1] && SubsequenceOf(a', b') {
        PrefixOfSubsequence(a', p, b');
      } else {
        PrefixOfSubsequence(a, p, b');
      }
    }
  }

  /** Every element of a subsequence of `b` occurs in `b`. */
  lemma {:induction false} SubsequenceMembers<T>(a: seq<T>, b: seq<T>)
    requires SubsequenceOf(a, b)
    ensures forall x | x in a :: x in b
    decreases |b|
  {
    if a != [] {
      var a', b' := a[..|a| - 1], b[..|b| - 1];
      if a[|a| - 1] == b[|b| - 1] && SubsequenceOf(a', b') {
        SubsequenceMembers(a', b');
        assert a == a' + [a[|a| - 1]] && b == b' + [b[|b| - 1]];
      } else {
        SubsequenceMembers(a, b');
        assert b == b' + [b[|b| - 1]];
      }
    }
  }
}
