/** Sums of integer sequences, as LINQ's `Sum` computes them. */
module Sums {

  function SumOf(xs: seq<int>): int {
    if |xs| == 0 then 0 else SumOf(xs[..|xs| - 1]) + xs[|xs| - 1]
  }

  /** Summing is additive over concatenation. */
  lemma {:induction false} SumOfAppend(xs: seq<int>, ys: seq<int>)
    ensures SumOf(xs + ys) == SumOf(xs) + SumOf(ys)
    decreases |ys|
  {
    if |ys| == 0 {
      assert xs + ys == xs;
    } else {
      var init := ys[..|ys| - 1];
      assert (xs + ys)[..|xs + ys| - 1] == xs + init;
      SumOfAppend(xs, init);
    }
  }

  /** A sum of naturals is a natural. */
  lemma {:induction false} SumOfNonNegative(xs: seq<int>)
    requires forall k :: 0 <= k < |xs| ==> xs[k] >= 0
    ensures SumOf(xs) >= 0
  {
    if |xs| > 0 {
      SumOfNonNegative(xs[..|xs| - 1]);
    }
  }
}
