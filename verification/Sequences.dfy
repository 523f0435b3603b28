/** Taking one element out of a list. */
module Sequences {
  /** The list without the first occurrence of `x`. */
  function WithoutFirst<T(==)>(xs: seq<T>, x: T): seq<T> {
    if xs == [] then [] else if xs[0] == x then xs[1..] else [xs[0]] + WithoutFirst(xs[1..], x)
  }

  /** One occurrence goes, and nothing else. */
  lemma {:induction false} WithoutFirstContents<T>(xs: seq<T>, x: T)
    requires x in xs
    ensures multiset(WithoutFirst(xs, x)) + multiset{x} == multiset(xs)
  {
    assert xs == [xs[0]] + xs[1..];
    if xs[0] != x {
      WithoutFirstContents(xs[1..], x);
    }
  }

  predicate NoRepeats<T(==)>(xs: seq<T>) {
    forall i, j | 0 <= i < j < |xs| :: xs[i] != xs[j]
  }

  /** In a list without repeats that was the only occurrence. */
  lemma {:induction false} WithoutOnly<T>(xs: seq<T>, x: T)
    requires x in xs && NoRepeats(xs)
    ensures forall y :: y in WithoutFirst(xs, x) <==> y in xs && y != x
    ensures NoRepeats(WithoutFirst(xs, x))
  {
    if xs[0] == x {
      assert forall i | 1 <= i < |xs| :: xs[i] != x;
    } else {
      WithoutOnly(xs[1..], x);
      assert xs[0] !in xs[1..];
      assert WithoutFirst(xs, x) == [xs[0]] + WithoutFirst(xs[1..], x);
    }
  }
}
