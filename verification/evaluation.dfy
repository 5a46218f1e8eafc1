/** Scoring the held-out split. A row is predicted malicious (1) exactly when its
    reconstruction error is strictly above the threshold, benign (0) otherwise; the
    predictions are then compared with the true `Malicious` labels, class 1 being the
    positive class. */
module Evaluation {

  /** Every label is 0 or 1. */
  predicate IsBinary(labels: seq<int>)
  {
    forall i :: 0 <= i < |labels| ==> labels[i] == 0 || labels[i] == 1
  }

  /** `[1 if e > threshold else 0 for e in errors]`: one label per error, in order. */
  function Classify(errors: seq<real>, threshold: real): (labels: seq<int>)
    ensures |labels| == |errors| && IsBinary(labels)
    ensures forall i :: 0 <= i < |errors| ==> (labels[i] == 1 <==> errors[i] > threshold)
  {
    seq(|errors|, i requires 0 <= i < |errors| => if errors[i] > threshold then 1 else 0)
  }

  /** Number of positions holding v. */
  function Count(s: seq<int>, v: int): (n: nat)
    ensures n <= |s|
  {
    if s == [] then 0 else Count(s[..|s| - 1], v) + (if s[|s| - 1] == v then 1 else 0)
  }

  /** Where one labelling flags a row, the other does too: the other flags at least as many. */
  lemma {:induction false} CountDominated(a: seq<int>, b: seq<int>)
    requires |a| == |b|
    requires forall i :: 0 <= i < |a| && a[i] == 1 ==> b[i] == 1
    ensures Count(a, 1) <= Count(b, 1)
  {
    if a != [] {
      var n := |a| - 1;
      assert forall i :: 0 <= i < n ==> a[..n][i] == a[i] && b[..n][i] == b[i];
      CountDominated(a[..n], b[..n]);
    }
  }

  /** Raising the threshold never flags a row that the lower threshold left benign, so
      it never increases the number of predicted malicious rows. */
  lemma ClassifyMonotone(errors: seq<real>, t1: real, t2: real)
    requires t1 <= t2
    ensures forall i :: 0 <= i < |errors| ==> Classify(errors, t2)[i] <= Classify(errors, t1)[i]
    ensures Count(Classify(errors, t2), 1) <= Count(Classify(errors, t1), 1)
  {
    CountDominated(Classify(errors, t2), Classify(errors, t1));
  }

  /** A threshold at or above every error flags nothing. */
  lemma {:induction false} ClassifyAboveAllFlagsNothing(errors: seq<real>, t: real)
    requires forall i :: 0 <= i < |errors| ==> errors[i] <= t
    ensures Count(Classify(errors, t), 1) == 0
  {
    if errors != [] {
      var n := |errors| - 1;
      assert Classify(errors, t)[..n] == Classify(errors[..n], t);
      ClassifyAboveAllFlagsNothing(errors[..n], t);
    }
  }

  /** The four cells of `confusion_matrix(y_true, y_pred)` for labels [0, 1]. */
  datatype Confusion = Confusion(tn: nat, fp: nat, fn: nat, tp: nat)
  {
    function Total(): nat
    {
      tn + fp + fn + tp
    }

    /** Rows are the true class, columns the predicted class, both ordered
        Normal (0), Malicious (1):  TN | FP  over  FN | TP. */
    function Matrix(): (m: seq<seq<nat>>)
      ensures |m| == 2 && |m[0]| == 2 && |m[1]| == 2
      ensures m[0][0] + m[0][1] + m[1][0] + m[1][1] == Total()
    {
      [[tn, fp], [fn, tp]]
    }

    /** Fraction of predicted-malicious rows that are malicious; 0 when nothing is
        predicted malicious. */
    function Precision(): (p: real)
      ensures 0.0 <= p <= 1.0
      ensures p == 0.0 <==> tp == 0
      ensures p == 1.0 <==> tp > 0 && fp == 0
    {
      if tp + fp == 0 then 0.0 else Ratio(tp, tp + fp)
    }

    /** Fraction of malicious rows that are predicted malicious; 0 when there are none. */
    function Recall(): (r: real)
      ensures 0.0 <= r <= 1.0
      ensures r == 0.0 <==> tp == 0
      ensures r == 1.0 <==> tp > 0 && fn == 0
    {
      if tp + fn == 0 then 0.0 else Ratio(tp, tp + fn)
    }

    /** The F1 score 2 TP / (2 TP + FP + FN); 0 when that denominator is 0. */
    function F1(): (f: real)
      ensures 0.0 <= f <= 1.0
      ensures f == 0.0 <==> tp == 0
      ensures f == 1.0 <==> tp > 0 && fp == 0 && fn == 0
    {
      if 2 * tp + fp + fn == 0 then 0.0 else Ratio(2 * tp, 2 * tp + fp + fn)
    }
  }

  /** a / b for counts a <= b, b > 0. */
  function Ratio(a: nat, b: nat): (r: real)
    requires 0 < b && a <= b
    ensures 0.0 <= r <= 1.0
    ensures r == 0.0 <==> a == 0
    ensures r == 1.0 <==> a == b
    ensures r * (b as real) == a as real
  {
    RatioBounds(a, b);
    (a as real) / (b as real)
  }

  lemma RatioBounds(a: nat, b: nat)
    requires 0 < b && a <= b
    ensures var q := (a as real) / (b as real);
      && 0.0 <= q <= 1.0
      && (q == 0.0 <==> a == 0)
      && (q == 1.0 <==> a == b)
      && q * (b as real) == a as real
  {
  }

  /** Number of samples whose true label is t and predicted label is p. */
  function PairCount(yTrue: seq<int>, yPred: seq<int>, t: int, p: int): (n: nat)
    requires |yTrue| == |yPred|
    ensures n <= |yTrue|
  {
    if yTrue == [] then 0
    else
      var n := |yTrue| - 1;
      PairCount(yTrue[..n], yPred[..n], t, p) + (if yTrue[n] == t && yPred[n] == p then 1 else 0)
  }

  /** `confusion_matrix(y_true, y_pred)` over the labels 0 and 1: each cell counts the
      samples of its true class (row) that were predicted as its class (column). Every
      sample falls in exactly one cell; the rows add up to the true class sizes and the
      columns to the predicted class sizes. */
  function ConfusionOf(yTrue: seq<int>, yPred: seq<int>): (c: Confusion)
    requires |yTrue| == |yPred| && IsBinary(yTrue) && IsBinary(yPred)
    ensures c.tn + c.fp == Count(yTrue, 0) && c.fn + c.tp == Count(yTrue, 1)
    ensures c.tn + c.fn == Count(yPred, 0) && c.fp + c.tp == Count(yPred, 1)
    ensures c.Total() == |yTrue|
  {
    RowMargin(yTrue, yPred, 0);
    RowMargin(yTrue, yPred, 1);
    ColumnMargin(yTrue, yPred, 0);
    ColumnMargin(yTrue, yPred, 1);
    BinaryCounts(yTrue);
    Confusion(PairCount(yTrue, yPred, 0, 0), PairCount(yTrue, yPred, 0, 1),
              PairCount(yTrue, yPred, 1, 0), PairCount(yTrue, yPred, 1, 1))
  }

  lemma {:induction false} RowMargin(yTrue: seq<int>, yPred: seq<int>, t: int)
    requires |yTrue| == |yPred| && IsBinary(yPred)
    ensures PairCount(yTrue, yPred, t, 0) + PairCount(yTrue, yPred, t, 1) == Count(yTrue, t)
  {
    if yTrue != [] {
      var n := |yTrue| - 1;
      BinaryPrefix(yPred, n);
      RowMargin(yTrue[..n], yPred[..n], t);
    }
  }

  lemma {:induction false} ColumnMargin(yTrue: seq<int>, yPred: seq<int>, p: int)
    requires |yTrue| == |yPred| && IsBinary(yTrue)
    ensures PairCount(yTrue, yPred, 0, p) + PairCount(yTrue, yPred, 1, p) == Count(yPred, p)
  {
    if yTrue != [] {
      var n := |yTrue| - 1;
      BinaryPrefix(yTrue, n);
      ColumnMargin(yTrue[..n], yPred[..n], p);
    }
  }

  /** In a binary labelling every sample is a 0 or a 1. */
  lemma {:induction false} BinaryCounts(s: seq<int>)
    requires IsBinary(s)
    ensures Count(s, 0) + Count(s, 1) == |s|
  {
    if s != [] {
      BinaryPrefix(s, |s| - 1);
      BinaryCounts(s[..|s| - 1]);
    }
  }

  lemma BinaryPrefix(s: seq<int>, n: nat)
    requires IsBinary(s) && n <= |s|
    ensures IsBinary(s[..n])
  {
  }

  /** Indices of the samples whose true label is t and predicted label is p. */
  function PairIndices(yTrue: seq<int>, yPred: seq<int>, t: int, p: int): set<nat>
    requires |yTrue| == |yPred|
  {
    set i: nat | i < |yTrue| && yTrue[i] == t && yPred[i] == p
  }

  /** Cell [t][p] of the matrix counts exactly the samples of true class t that were
      predicted as class p. */
  lemma ConfusionLayout(yTrue: seq<int>, yPred: seq<int>, t: int, p: int)
    requires |yTrue| == |yPred| && IsBinary(yTrue) && IsBinary(yPred)
    requires (t == 0 || t == 1) && (p == 0 || p == 1)
    ensures ConfusionOf(yTrue, yPred).Matrix()[t][p] == |PairIndices(yTrue, yPred, t, p)|
  {
    PairCountIsCardinality(yTrue, yPred, t, p);
  }

  lemma {:induction false} PairCountIsCardinality(yTrue: seq<int>, yPred: seq<int>, t: int, p: int)
    requires |yTrue| == |yPred|
    ensures PairCount(yTrue, yPred, t, p) == |PairIndices(yTrue, yPred, t, p)|
  {
    if yTrue == [] {
      assert PairIndices(yTrue, yPred, t, p) == {};
    } else {
      var n := |yTrue| - 1;
      PairCountIsCardinality(yTrue[..n], yPred[..n], t, p);
      var before := PairIndices(yTrue[..n], yPred[..n], t, p);
      if yTrue[n] == t && yPred[n] == p {
        assert PairIndices(yTrue, yPred, t, p) == before + {n};
      } else {
        assert PairIndices(yTrue, yPred, t, p) == before;
      }
    }
  }

  /** Number of samples whose predicted label equals the true label. */
  function Agreements(yTrue: seq<int>, yPred: seq<int>): (n: nat)
    requires |yTrue| == |yPred|
    ensures n <= |yTrue|
  {
    if yTrue == [] then 0
    else
      var n := |yTrue| - 1;
      Agreements(yTrue[..n], yPred[..n]) + (if yTrue[n] == yPred[n] then 1 else 0)
  }

  /** `accuracy_score(y_true, y_pred)`: the fraction of samples predicted correctly. */
  function Accuracy(yTrue: seq<int>, yPred: seq<int>): (a: real)
    requires |yTrue| == |yPred| > 0
    ensures 0.0 <= a <= 1.0
    ensures a == 1.0 <==> yTrue == yPred
  {
    AllAgreeIffEqual(yTrue, yPred);
    Ratio(Agreements(yTrue, yPred), |yTrue|)
  }

  lemma {:induction false} AllAgreeIffEqual(yTrue: seq<int>, yPred: seq<int>)
    requires |yTrue| == |yPred|
    ensures Agreements(yTrue, yPred) == |yTrue| <==> yTrue == yPred
  {
    if yTrue != [] {
      var n := |yTrue| - 1;
      AllAgreeIffEqual(yTrue[..n], yPred[..n]);
      assert yTrue == yTrue[..n] + [yTrue[n]] && yPred == yPred[..n] + [yPred[n]];
    }
  }

  /** The correct predictions are the diagonal of the confusion matrix. */
  lemma {:induction false} AgreementsAreDiagonal(yTrue: seq<int>, yPred: seq<int>)
    requires |yTrue| == |yPred| && IsBinary(yTrue) && IsBinary(yPred)
    ensures Agreements(yTrue, yPred) == PairCount(yTrue, yPred, 0, 0) + PairCount(yTrue, yPred, 1, 1)
  {
    if yTrue != [] {
      var n := |yTrue| - 1;
      BinaryPrefix(yTrue, n);
      BinaryPrefix(yPred, n);
      AgreementsAreDiagonal(yTrue[..n], yPred[..n]);
    }
  }

  /** Accuracy read off the confusion matrix: (TN + TP) / n. */
  lemma AccuracyFromConfusion(yTrue: seq<int>, yPred: seq<int>)
    requires |yTrue| == |yPred| > 0 && IsBinary(yTrue) && IsBinary(yPred)
    ensures Accuracy(yTrue, yPred)
      == (ConfusionOf(yTrue, yPred).tn + ConfusionOf(yTrue, yPred).tp) as real / (|yTrue| as real)
  {
    AgreementsAreDiagonal(yTrue, yPred);
    var agree := Agreements(yTrue, yPred);
    assert Accuracy(yTrue, yPred) == Ratio(agree, |yTrue|);
    assert ConfusionOf(yTrue, yPred).tn + ConfusionOf(yTrue, yPred).tp == agree;
  }

  /** With at least one true positive, F1 is the harmonic mean of precision and recall. */
  lemma F1IsHarmonicMean(c: Confusion)
    requires c.tp > 0
    ensures c.F1() * (c.Precision() + c.Recall()) == 2.0 * c.Precision() * c.Recall()
  {
  }

  /** Four test samples, true labels [0, 0, 1, 1], predictions [0, 1, 1, 1]. */
  lemma SmallScenario()
    ensures ConfusionOf([0, 0, 1, 1], [0, 1, 1, 1]) == Confusion(1, 1, 0, 2)
    ensures Accuracy([0, 0, 1, 1], [0, 1, 1, 1]) == 0.75
    ensures Confusion(1, 1, 0, 2).Precision() == 2.0 / 3.0
    ensures Confusion(1, 1, 0, 2).Recall() == 1.0
    ensures Confusion(1, 1, 0, 2).F1() == 0.8
  {
    var yTrue, yPred := [0, 0, 1, 1], [0, 1, 1, 1];
    assert yTrue[..3] == [0, 0, 1] && yTrue[..3][..2] == [0, 0] && yTrue[..3][..2][..1] == [0];
    assert yPred[..3] == [0, 1, 1] && yPred[..3][..2] == [0, 1] && yPred[..3][..2][..1] == [0];
    assert [0][..0] == [];
    forall t, p
      ensures PairCount([0], [0], t, p) == (if t == 0 && p == 0 then 1 else 0)
      ensures PairCount([0, 0], [0, 1], t, p) == PairCount([0], [0], t, p) + (if t == 0 && p == 1 then 1 else 0)
      ensures PairCount([0, 0, 1], [0, 1, 1], t, p) == PairCount([0, 0], [0, 1], t, p) + (if t == 1 && p == 1 then 1 else 0)
      ensures PairCount(yTrue, yPred, t, p) == PairCount([0, 0, 1], [0, 1, 1], t, p) + (if t == 1 && p == 1 then 1 else 0)
    {
    }
    assert Agreements([0], [0]) == 1;
    assert Agreements([0, 0], [0, 1]) == 1;
    assert Agreements([0, 0, 1], [0, 1, 1]) == 2;
    assert Agreements(yTrue, yPred) == 3;
  }
}
