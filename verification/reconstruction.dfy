/** Per-row reconstruction error: the mean absolute difference between a feature row
    and the autoencoder's reconstruction of it. The network itself is not modelled;
    its output for a batch is given as a matrix of the same shape as the batch. */
module Reconstruction {
  import opened Stats
  import opened Dataset

  function Abs(x: real): real
  {
    if x < 0.0 then -x else x
  }

  /** `np.abs(pred - x)` for one row. */
  function AbsDifferences(x: Row, recon: Row): (d: seq<real>)
    requires |x| == |recon|
    ensures |d| == |x|
  {
    seq(|x|, j requires 0 <= j < |x| => Abs(recon[j] - x[j]))
  }

  /** Mean absolute error of one row: zero exactly for a perfect reconstruction,
      positive otherwise. */
  function Mae(x: Row, recon: Row): (e: real)
    requires |x| == |recon| > 0
    ensures e >= 0.0
    ensures e == 0.0 <==> x == recon
  {
    MeanAbsDifferenceZeroIff(x, recon);
    Mean(AbsDifferences(x, recon))
  }

  lemma MeanAbsDifferenceZeroIff(x: Row, recon: Row)
    requires |x| == |recon| > 0
    ensures Mean(AbsDifferences(x, recon)) >= 0.0
    ensures Mean(AbsDifferences(x, recon)) == 0.0 <==> x == recon
  {
    var d := AbsDifferences(x, recon);
    MeanAtLeast(d, 0.0);
    if Mean(d) == 0.0 {
      MeanZeroForcesZero(d);
      forall j | 0 <= j < |x|
        ensures x[j] == recon[j]
      {
        assert d[j] == Abs(recon[j] - x[j]) == 0.0;
      }
    }
    if x == recon {
      assert forall j :: 0 <= j < |x| ==> d[j] == 0.0;
      MeanAtMost(d, 0.0);
    }
  }

  /** The error of a row lies between its smallest and its largest feature deviation. */
  lemma MaeBetweenDeviations(x: Row, recon: Row, lo: real, hi: real)
    requires |x| == |recon| > 0
    requires forall j :: 0 <= j < |x| ==> lo <= Abs(recon[j] - x[j]) <= hi
    ensures lo <= Mae(x, recon) <= hi
  {
    var d := AbsDifferences(x, recon);
    MeanAtLeast(d, lo);
    MeanAtMost(d, hi);
  }

  /** A batch and its reconstruction have the same number of rows, row by row the same
      non-zero number of features. */
  predicate SameShape(x: Matrix, recon: Matrix)
  {
    |x| == |recon| && forall i :: 0 <= i < |x| ==> |x[i]| == |recon[i]| > 0
  }

  /** `np.mean(np.abs(pred - x), axis=1)`: one error per row, in row order. */
  function MaeLoss(x: Matrix, recon: Matrix): (errors: seq<real>)
    requires SameShape(x, recon)
    ensures |errors| == |x|
    ensures forall i :: 0 <= i < |x| ==> errors[i] >= 0.0 && (errors[i] == 0.0 <==> x[i] == recon[i])
  {
    seq(|x|, i requires 0 <= i < |x| => Mae(x[i], recon[i]))
  }

  /** The per-row errors of a concatenated batch are the concatenated per-row errors:
      each error depends on its own row only. */
  lemma MaeLossAppend(x1: Matrix, r1: Matrix, x2: Matrix, r2: Matrix)
    requires SameShape(x1, r1) && SameShape(x2, r2)
    ensures SameShape(x1 + x2, r1 + r2)
    ensures MaeLoss(x1 + x2, r1 + r2) == MaeLoss(x1, r1) + MaeLoss(x2, r2)
  {
  }
}
