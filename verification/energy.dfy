/**
 The accumulation inside rootMeanSquare: the sum of the squared samples of
 a chunk, divided by the chunk's length. The final square root is not part
 of the model; everything here is about the quantity under it.
 */
module Energy {

  /** Squares added up in the order of the samples. */
  function SumSquares(xs: seq<real>): (s: real)
    ensures s >= 0.0
  {
    if xs == [] then 0.0 else SumSquares(xs[..|xs| - 1]) + xs[|xs| - 1] * xs[|xs| - 1]
  }

  /** The mean of the squares, the value whose square root is the RMS. */
  function MeanSquare(xs: seq<real>): (m: real)
    requires |xs| > 0
    ensures m >= 0.0
  {
    SumSquares(xs) / |xs| as real
  }

  /** An all-zero chunk has no energy. */
  lemma {:induction false} SilenceHasNoEnergy(xs: seq<real>)
    requires forall k :: 0 <= k < |xs| ==> xs[k] == 0.0
    ensures SumSquares(xs) == 0.0
  {
    if xs != [] {
      var init := xs[..|xs| - 1];
      assert forall k :: 0 <= k < |init| ==> init[k] == xs[k];
      SilenceHasNoEnergy(init);
    }
  }

  /** A chunk holding `a` in every slot has energy `n * a^2`. */
  lemma {:induction false} ConstantSum(xs: seq<real>, a: real)
    requires forall k :: 0 <= k < |xs| ==> xs[k] == a
    ensures SumSquares(xs) == |xs| as real * a * a
  {
    if xs != [] {
      var init := xs[..|xs| - 1];
      assert forall k :: 0 <= k < |init| ==> init[k] == xs[k];
      ConstantSum(init, a);
    }
  }

  /** A constant chunk of amplitude `a` has mean square `a^2`, so its RMS is `|a|`. */
  lemma ConstantMean(xs: seq<real>, a: real)
    requires |xs| > 0 && forall k :: 0 <= k < |xs| ==> xs[k] == a
    ensures MeanSquare(xs) == a * a
  {
    ConstantSum(xs, a);
  }
}
