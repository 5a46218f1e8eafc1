/** The detector end to end: select the benign training rows, score them with the
    autoencoder, derive the trimmed threshold from their errors, score every test row,
    flag those above the threshold and compare the flags with the true labels. */
module Detector {
  import opened Stats
  import opened Dataset
  import opened Reconstruction
  import opened Threshold
  import opened Evaluation

  /** What one run reports: both thresholds and the removed count, the predicted label
      of every test row, the confusion matrix and the accuracy. */
  datatype Report = Report(thresholds: Thresholds, predictions: seq<int>, confusion: Confusion, accuracy: real)

  /** The whole pipeline. The autoencoder's reconstructions of the clean training rows
      and of the test rows, and the standard deviation of the training errors, are
      inputs. The run fails on an empty clean training set (NoErrors), or where
      `np.max(final_list)` raises on an empty band (EmptyBand). */
  function Detect(xTrain: Matrix, yTrain: seq<int>, reconClean: Matrix,
                  xTest: Matrix, yTest: seq<int>, reconTest: Matrix, sd: real): (r: Result<Report>)
    requires |xTrain| == |yTrain| && SameShape(CleanSubset(xTrain, yTrain), reconClean)
    requires |CleanIndices(yTrain)| > 0 ==> IsPopulationSd(MaeLoss(CleanSubset(xTrain, yTrain), reconClean), sd)
    requires SameShape(xTest, reconTest) && |xTest| == |yTest| > 0 && IsBinary(yTest)
    ensures r == Err(NoErrors) <==> forall i :: 0 <= i < |yTrain| ==> yTrain[i] != 0
    ensures r.Err? <==>
      |CleanIndices(yTrain)| == 0 || Constant(MaeLoss(CleanSubset(xTrain, yTrain), reconClean))
    ensures r.Ok? ==>
      var clean := CleanSubset(xTrain, yTrain);
      var th := r.value.thresholds;
      && th.trimmed <= th.raw
      && (forall i :: 0 <= i < |clean| ==> Mae(clean[i], reconClean[i]) <= th.raw)
      && th.removed < |clean|
    ensures r.Ok? ==>
      var p := r.value.predictions;
      && |p| == |yTest| && IsBinary(p)
      && (forall i :: 0 <= i < |xTest| ==>
            (p[i] == 1 <==> Mae(xTest[i], reconTest[i]) > r.value.thresholds.trimmed))
    ensures r.Ok? ==>
      EstimateThreshold(MaeLoss(CleanSubset(xTrain, yTrain), reconClean), sd) == Ok(r.value.thresholds)
    ensures r.Ok? ==> r.value == Score(r.value.thresholds, MaeLoss(xTest, reconTest), yTest)
  {
    var clean := CleanSubset(xTrain, yTrain);
    var trainErrors := MaeLoss(clean, reconClean);
    EstimateFailsIffConstant(trainErrors, sd);
    NoCleanRowIffAllMalicious(yTrain);
    var estimate := EstimateThreshold(trainErrors, sd);
    if estimate.Err? then Err(estimate.error)
    else
      EstimateThresholdBounds(trainErrors, sd);
      Ok(Score(estimate.value, MaeLoss(xTest, reconTest), yTest))
  }

  /** Scoring the test rows against the trimmed threshold: a row is flagged exactly when
      its error is above the threshold; cell [t][p] of the matrix counts the test rows of
      true class t predicted as p, and the accuracy is its diagonal over the number of
      rows. */
  function Score(th: Thresholds, testErrors: seq<real>, yTest: seq<int>): (rep: Report)
    requires |testErrors| == |yTest| > 0 && IsBinary(yTest)
    ensures rep.thresholds == th
    ensures |rep.predictions| == |yTest| && IsBinary(rep.predictions)
    ensures forall i :: 0 <= i < |testErrors| ==> (rep.predictions[i] == 1 <==> testErrors[i] > th.trimmed)
    ensures rep.confusion.Total() == |yTest|
    ensures rep.confusion.fp + rep.confusion.tp == Count(rep.predictions, 1)
    ensures rep.confusion.fn + rep.confusion.tp == Count(yTest, 1)
    ensures rep.accuracy == Ratio(rep.confusion.tn + rep.confusion.tp, |yTest|)
    ensures rep.predictions == Classify(testErrors, th.trimmed)
    ensures rep.confusion == ConfusionOf(yTest, rep.predictions)
    ensures forall t, p :: 0 <= t < 2 && 0 <= p < 2 ==>
      rep.confusion.Matrix()[t][p] == |PairIndices(yTest, rep.predictions, t, p)|
  {
    var predictions := Classify(testErrors, th.trimmed);
    AgreementsAreDiagonal(yTest, predictions);
    forall t, p | 0 <= t < 2 && 0 <= p < 2
      ensures ConfusionOf(yTest, predictions).Matrix()[t][p] == |PairIndices(yTest, predictions, t, p)|
    {
      ConfusionLayout(yTest, predictions, t, p);
    }
    Report(th, predictions, ConfusionOf(yTest, predictions), Accuracy(yTest, predictions))
  }

  /** There is no clean row exactly when every training label is 1 (or another non-zero value). */
  lemma NoCleanRowIffAllMalicious(y: seq<int>)
    ensures |CleanIndices(y)| == 0 <==> forall i :: 0 <= i < |y| ==> y[i] != 0
  {
  }

  /** The raw threshold is the largest training error, so it flags no training row. */
  lemma RawThresholdFlagsNoTraining(errors: seq<real>, sd: real)
    requires |errors| > 0 ==> IsPopulationSd(errors, sd)
    requires EstimateThreshold(errors, sd).Ok?
    ensures Count(Classify(errors, EstimateThreshold(errors, sd).value.raw), 1) == 0
  {
    EstimateThresholdBounds(errors, sd);
    ClassifyAboveAllFlagsNothing(errors, EstimateThreshold(errors, sd).value.raw);
  }

  /** The trimmed threshold flags no training row inside the band, so the training rows it
      flags are among those the trimming removed. */
  lemma TrimmedThresholdFlagsOnlyRemoved(errors: seq<real>, sd: real)
    requires |errors| > 0 ==> IsPopulationSd(errors, sd)
    requires EstimateThreshold(errors, sd).Ok?
    ensures var t := EstimateThreshold(errors, sd).value;
      && (forall i :: 0 <= i < |errors| && errors[i] > t.trimmed ==>
            errors[i] >= Upper(Mean(errors), sd))
      && Count(Classify(errors, t.trimmed), 1) <= t.removed
  {
    EstimateThresholdBounds(errors, sd);
    var t := EstimateThreshold(errors, sd).value;
    var lo, hi := Lower(Mean(errors), sd), Upper(Mean(errors), sd);
    FlaggedAreOutside(errors, t.trimmed, lo, hi);
  }

  /** When every value above t lies outside (lo, hi), classifying at t flags at most as
      many values as lie outside the band. */
  lemma {:induction false} FlaggedAreOutside(s: seq<real>, t: real, lo: real, hi: real)
    requires forall i :: 0 <= i < |s| && s[i] > t ==> s[i] <= lo || hi <= s[i]
    ensures Count(Classify(s, t), 1) <= |OutsideBand(s, lo, hi)|
  {
    if s != [] {
      var labels := Classify(s, t);
      assert labels[1..] == Classify(s[1..], t);
      CountFront(labels, 1);
      FlaggedAreOutside(s[1..], t, lo, hi);
    }
  }

  /** Counting from the front: the first element's share plus the count of the rest. */
  lemma {:induction false} CountFront(s: seq<int>, v: int)
    requires |s| > 0
    ensures Count(s, v) == (if s[0] == v then 1 else 0) + Count(s[1..], v)
  {
    if |s| > 1 {
      var n := |s| - 1;
      CountFront(s[..n], v);
      assert s[..n][1..] == s[1..][..n - 1];
    }
  }

  /** Every test row the raw threshold flags is flagged by the trimmed one as well: trimming
      can only add alarms. */
  lemma TrimmedFlagsEveryRawAlarm(errors: seq<real>, sd: real, testErrors: seq<real>)
    requires |errors| > 0 ==> IsPopulationSd(errors, sd)
    requires EstimateThreshold(errors, sd).Ok?
    ensures var t := EstimateThreshold(errors, sd).value;
      && (forall i :: 0 <= i < |testErrors| ==>
            Classify(testErrors, t.raw)[i] <= Classify(testErrors, t.trimmed)[i])
      && Count(Classify(testErrors, t.raw), 1) <= Count(Classify(testErrors, t.trimmed), 1)
  {
    EstimateThresholdBounds(errors, sd);
    var t := EstimateThreshold(errors, sd).value;
    ClassifyMonotone(testErrors, t.trimmed, t.raw);
  }
}
