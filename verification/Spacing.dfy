/** How many events that keep a minimum distance fit into a span of time. */
module Spacing {
  /** Each event comes at least `gap` after the one before it. */
  predicate Spaced(times: seq<int>, gap: int) {
    forall i | 0 <= i < |times| - 1 :: times[i + 1] - times[i] >= gap
  }

  lemma {:induction false} Distance(times: seq<int>, gap: nat, i: nat, j: nat)
    requires Spaced(times, gap) && i <= j < |times|
    ensures times[j] - times[i] >= (j - i) * gap
  {
    if i < j {
      Distance(times, gap, i, j - 1);
      assert (j - i) * gap == (j - 1 - i) * gap + gap;
    }
  }

  lemma {:induction false} QuotientBound(n: nat, gap: nat, span: nat)
    requires gap > 0 && n * gap <= span
    ensures n <= span / gap
  {
    var q := span / gap;
    assert span < (q + 1) * gap;
    assert n * gap == (q + 1) * gap + (n - q - 1) * gap;
    assert n > q ==> (n - q - 1) * gap >= 0;
  }

  /** The events of any stretch of length `span` number at most span / gap + 1. */
  lemma {:induction false} AtMost(times: seq<int>, gap: nat, i: nat, j: nat, span: nat)
    requires Spaced(times, gap) && gap > 0
    requires i < j <= |times| && times[j - 1] - times[i] <= span
    ensures j - i <= span / gap + 1
  {
    Distance(times, gap, i, j - 1);
    QuotientBound(j - 1 - i, gap, span);
  }
}
