/** The feature table after the train/test split: a matrix of feature rows and,
    aligned with it row by row, the `Malicious` label column (0 benign, 1 malicious).
    The "clean" subset of a split keeps its benign rows, in their original order,
    for unsupervised training and validation. */
module Dataset {

  /** One observation (packet subflow): its numeric feature values. */
  type Row = seq<real>

  /** A batch of observations, one row each. */
  type Matrix = seq<Row>

  /** Positions of the label-0 rows, in increasing order (`y[y['Malicious'] == 0].index`). */
  function CleanIndices(y: seq<int>): (idx: seq<nat>)
    ensures forall k :: 0 <= k < |idx| ==> idx[k] < |y| && y[idx[k]] == 0
    ensures forall k, l :: 0 <= k < l < |idx| ==> idx[k] < idx[l]
    ensures forall i :: 0 <= i < |y| && y[i] == 0 ==> i in idx
  {
    if y == [] then []
    else
      var last := |y| - 1;
      var front := CleanIndices(y[..last]);
      assert forall i :: 0 <= i < last ==> y[..last][i] == y[i];
      front + (if y[last] == 0 then [last] else [])
  }

  /** The rows of `x` whose label is 0, in their original order (`X.loc[clean_indices]`). */
  function CleanSubset(x: Matrix, y: seq<int>): (clean: Matrix)
    requires |x| == |y|
    ensures |clean| == |CleanIndices(y)| <= |x|
    ensures forall row :: row in clean ==> row in x
  {
    if x == [] then []
    else
      var last := |x| - 1;
      var front := CleanSubset(x[..last], y[..last]);
      assert forall row :: row in x[..last] ==> row in x;
      front + (if y[last] == 0 then [x[last]] else [])
  }

  /** The k-th clean row is the row of `x` at the k-th clean position: no label-1 row
      survives, every label-0 row does, and the original order is kept. */
  lemma {:induction false} CleanSubsetSelects(x: Matrix, y: seq<int>)
    requires |x| == |y|
    ensures |CleanSubset(x, y)| == |CleanIndices(y)|
    ensures forall k :: 0 <= k < |CleanIndices(y)| ==>
      CleanSubset(x, y)[k] == x[CleanIndices(y)[k]] && y[CleanIndices(y)[k]] == 0
  {
    if x != [] {
      var last := |x| - 1;
      CleanSubsetSelects(x[..last], y[..last]);
      var front := CleanIndices(y[..last]);
      assert CleanIndices(y) == front + (if y[last] == 0 then [last] else []);
      forall k | 0 <= k < |front|
        ensures CleanSubset(x, y)[k] == x[CleanIndices(y)[k]]
      {
        assert CleanSubset(x, y)[k] == CleanSubset(x[..last], y[..last])[k];
        assert x[..last][front[k]] == x[front[k]];
      }
    }
  }

  /** Selecting clean rows commutes with splitting the table in two: the clean subset of
      a concatenation is the concatenation of the clean subsets. */
  lemma {:induction false} CleanSubsetAppend(x1: Matrix, y1: seq<int>, x2: Matrix, y2: seq<int>)
    requires |x1| == |y1| && |x2| == |y2|
    ensures CleanSubset(x1 + x2, y1 + y2) == CleanSubset(x1, y1) + CleanSubset(x2, y2)
  {
    if x2 != [] {
      var last2 := |x2| - 1;
      var x, y := x1 + x2, y1 + y2;
      assert x[..|x| - 1] == x1 + x2[..last2];
      assert y[..|y| - 1] == y1 + y2[..last2];
      CleanSubsetAppend(x1, y1, x2[..last2], y2[..last2]);
    } else {
      assert x1 + x2 == x1 && y1 + y2 == y1;
    }
  }
}
