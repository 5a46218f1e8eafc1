# 5G autoencoder intrusion detector — threshold and evaluation model

The script trains an autoencoder on benign 5G packet-subflow features. It flags a
subflow as malicious when the autoencoder reconstructs it badly. This project models
the numeric core that turns reconstructions into alarms and scores, and proves
properties of it. The core has five parts:

- **Clean subset.** The benign (label 0) rows of a split, kept in their original order
  (`Dataset`).
- **Reconstruction error.** The error of a row is the mean absolute difference between
  the row and its reconstruction (`Reconstruction`). Numpy's sum, mean, population
  variance and max are modelled in `Stats`.
- **Thresholds** (`Threshold`):
  - The raw threshold is the largest clean training error.
  - The trimmed threshold drops every error outside the open band
    (mean − 2·sd, mean + 2·sd) in two passes, then takes the largest error that remains.
    Both bounds are exclusive. The number of removed errors is reported as well.
- **Scoring** (`Evaluation`):
  - A test row is flagged (1) exactly when its error is strictly above the trimmed
    threshold.
  - The flags are compared with the true labels. This gives the confusion matrix
    TN | FP over FN | TP, the accuracy, and precision, recall and F1. Each of the last
    three is 0 when its denominator is 0.
- **The pipeline** (`Detector`): the whole chain, from the labelled split and the
  autoencoder's outputs to the report.

Arithmetic is exact (`real`). The standard deviation is a parameter: a non-negative
number whose square is the population variance, as `np.std` returns it.

The central result is Chebyshev's inequality with k = 2. The band is empty exactly when
the standard deviation is 0, that is, exactly when all training errors are equal. So
the trimmed threshold fails, where `np.max` would raise, exactly on constant errors.
That includes a single clean training row.

The trimming factor is the literal `2` in both comprehensions
(`5G_Autoencoder.py:119-120`), not a parameter, and the model fixes it at 2.

For the errors [0.1, 0.2, 0.15, 0.12, 5.0] one might expect the outlier 5.0 to fall on
or beyond the upper bound. It does not:

- the mean is 1.114 and the population variance 3.776384;
- sd is therefore a little above 1.943, and the upper bound a little above 5.0;
- so 5.0 lies strictly inside the band, nothing is removed, and both thresholds are 5.0.

`Threshold.OutlierJustInsideUpperBound` proves this.

## Model

| member | source | states |
|---|---|---|
| Dataset.CleanIndices | 5G_Autoencoder.py:33 | every returned position holds label 0 and lies in range; the positions strictly increase; every label-0 position is returned |
| Dataset.CleanSubset | 5G_Autoencoder.py:34 | one row per clean position, never more rows than the split; every kept row is a row of the split |
| Dataset.CleanSubsetSelects | 5G_Autoencoder.py:33-34 | the k-th clean row is the split's row at the k-th label-0 position, so no malicious row survives and the order is kept |
| Dataset.CleanSubsetAppend | 5G_Autoencoder.py:33-37 | the clean subset of two concatenated splits is the concatenation of their clean subsets |
| Reconstruction.Mae | 5G_Autoencoder.py:104 | a row's error is non-negative, and it is zero exactly when the reconstruction equals the row |
| Reconstruction.MaeBetweenDeviations | 5G_Autoencoder.py:104 | a row's error lies between its smallest and its largest per-feature absolute deviation |
| Reconstruction.MaeLoss | 5G_Autoencoder.py:131 | one error per row, in row order; each is non-negative and zero exactly for a perfectly reconstructed row |
| Reconstruction.MaeLossAppend | 5G_Autoencoder.py:104 | the errors of a concatenated batch are the concatenated errors, since each depends only on its own row |
| Stats.Max | 5G_Autoencoder.py:105 | the maximum is an element of the list and at least every element |
| Stats.ZeroVarianceIffConstant | 5G_Autoencoder.py:116 | the population variance is zero exactly when all elements are equal, and the mean is then that value |
| Stats.ZeroSdIffZeroVariance | 5G_Autoencoder.py:116 | the standard deviation is zero exactly when the variance is |
| Threshold.KeepAbove | 5G_Autoencoder.py:119 | keeps exactly the elements strictly above the lower bound and never grows the list |
| Threshold.KeepBelow | 5G_Autoencoder.py:120 | keeps exactly the elements strictly below the upper bound and never grows the list |
| Threshold.InsideBand | 5G_Autoencoder.py:119-120 | reference definition of the trimmed list: exactly the elements strictly between the bounds |
| Threshold.OutsideBand | 5G_Autoencoder.py:123 | the removed elements: exactly those on or beyond either bound |
| Threshold.TwoPassTrimIsBand | 5G_Autoencoder.py:119-120 | the two comprehension passes give exactly the open band, in the original order; an error equal to a bound is dropped |
| Threshold.InsideBandAppend | 5G_Autoencoder.py:119-120 | trimming keeps order: the band of a concatenation is the concatenation of the bands |
| Threshold.BandPartition | 5G_Autoencoder.py:119-123 | kept and removed errors together are the training errors as a multiset, so the removed count is the list length minus the kept length |
| Threshold.EstimateThreshold | 5G_Autoencoder.py:105-123 | fails with NoErrors exactly on an empty error list; on success fewer errors are removed than there are |
| Threshold.EstimateThresholdBounds | 5G_Autoencoder.py:115-123 | on success the raw threshold is the largest error; the trimmed one is an error strictly inside the band, at least every error inside the band, and at most the raw one; the removed count is the number of errors outside the band |
| Threshold.EmptyBandForcesZeroSd | 5G_Autoencoder.py:115-120 | Chebyshev with k = 2: if no error lies strictly inside the band, the standard deviation is zero |
| Threshold.ZeroSdEmptiesBand | 5G_Autoencoder.py:115-120 | with zero standard deviation the open band is empty |
| Threshold.TrimmedEmptyIffConstant | 5G_Autoencoder.py:119-122 | the trimmed list is empty exactly when all training errors are equal |
| Threshold.EstimateFailsIffConstant | 5G_Autoencoder.py:105-122 | estimation fails exactly when there are no training errors or all of them are equal |
| Threshold.OutlierJustInsideUpperBound | 5G_Autoencoder.py:115-123 | for the errors [0.1, 0.2, 0.15, 0.12, 5.0] both thresholds are 5.0 and nothing is removed |
| Evaluation.Classify | 5G_Autoencoder.py:166 | one 0/1 label per error, and the label is 1 exactly when the error is strictly above the threshold |
| Evaluation.ClassifyMonotone | 5G_Autoencoder.py:166 | raising the threshold never turns a 0 into a 1, and never increases the number of flags |
| Evaluation.ClassifyAboveAllFlagsNothing | 5G_Autoencoder.py:166 | a threshold at or above every error flags nothing |
| Evaluation.ConfusionOf | 5G_Autoencoder.py:167 | the rows of the matrix add up to the true class sizes and its columns to the predicted class sizes; the four cells add up to the number of samples |
| Evaluation.ConfusionLayout | 5G_Autoencoder.py:167 | cell [t][p] is the number of samples with true label t and predicted label p |
| Evaluation.Confusion.Matrix | 5G_Autoencoder.py:178-180 | lays the four counts out as a 2×2 matrix, TN and FP in the first row, FN and TP in the second, whose cells add up to the total count |
| Evaluation.Accuracy | 5G_Autoencoder.py:182 | the accuracy lies in [0, 1] and is 1 exactly when every prediction is right |
| Evaluation.AllAgreeIffEqual | 5G_Autoencoder.py:182 | all samples agree exactly when the two labellings are equal |
| Evaluation.AgreementsAreDiagonal | 5G_Autoencoder.py:178-182 | the correct predictions are TN + TP |
| Evaluation.AccuracyFromConfusion | 5G_Autoencoder.py:178-182 | the accuracy equals (TN + TP) divided by the number of samples |
| Evaluation.Confusion.Recall | 5G_Autoencoder.py:183 | recall lies in [0, 1]; it is 0 exactly without true positives and 1 exactly when there are true positives and no false negatives |
| Evaluation.Confusion.Precision | 5G_Autoencoder.py:184 | precision lies in [0, 1]; it is 0 exactly without true positives and 1 exactly when there are true positives and no false positives |
| Evaluation.Confusion.F1 | 5G_Autoencoder.py:185 | F1 lies in [0, 1]; it is 0 exactly without true positives and 1 exactly when there are no false positives or negatives |
| Evaluation.F1IsHarmonicMean | 5G_Autoencoder.py:183-185 | with a true positive, F1 is the harmonic mean of precision and recall |
| Evaluation.SmallScenario | 5G_Autoencoder.py:166-185 | labels [0,0,1,1] against predictions [0,1,1,1] give TN 1, FP 1, FN 0, TP 2, accuracy 0.75, precision 2/3, recall 1 and F1 0.8 |
| Detector.Detect | 5G_Autoencoder.py:103-137 | fails with NoErrors exactly when no training label is 0, and fails at all exactly when there is no clean row or all clean errors are equal; on success the thresholds are exactly those `EstimateThreshold` computes from the clean training errors (so the bounds of `EstimateThresholdBounds` hold for them), the raw one bounds every clean training error, and each test row is flagged exactly when its error is above the trimmed threshold; the report is the scoring of the test errors |
| Detector.Score | 5G_Autoencoder.py:166-182 | the predictions are the classification of the test errors at the trimmed threshold; the matrix is the confusion matrix of the true labels against them, so cell [t][p] counts the test rows of true class t predicted as p; it counts every row once, its predicted-malicious column counts the flags and its malicious row the malicious rows; the accuracy is (TN + TP) over the number of rows |
| Detector.NoCleanRowIffAllMalicious | 5G_Autoencoder.py:33-34 | the clean subset is empty exactly when no training label is 0 |
| Detector.RawThresholdFlagsNoTraining | 5G_Autoencoder.py:105 | the raw threshold flags none of the clean training rows |
| Detector.TrimmedThresholdFlagsOnlyRemoved | 5G_Autoencoder.py:119-123 | every training error above the trimmed threshold lies at or beyond the upper bound, so the trimmed threshold flags at most the removed count of training rows |
| Detector.TrimmedFlagsEveryRawAlarm | 5G_Autoencoder.py:122 | every test row the raw threshold flags is also flagged by the trimmed one |

## Left out

- Loading the CSV, choosing the feature columns and `train_test_split` (lines 17-30): the split arrives as the input matrices and label sequences.
- The Keras autoencoder, its training, checkpointing and `load_model`/`predict` (lines 40-101): reconstructions are inputs of the same shape as the rows they reconstruct.
- Plots, the histogram and `print` output (lines 108-111, 147-176): they do not change any value that is modelled.
- The `concat`/`reset_index` of lines 141-145: they join `test_mae_loss` and `y_test`, which share `X_test`'s index, so the rows keep their order and values; the model reads the test errors and labels directly, position by position.
- An empty clean training set: the script fails on it while training (line 82), before any threshold exists; the model reports it as `NoErrors` instead of modelling that failure.
- Floating-point rounding, NaN and the square root inside `np.std`: arithmetic is exact, and the standard deviation is a parameter characterised by its square.
- Detector.Detect: requires at least one test row, because `accuracy_score` has no value on an empty test set.
- Reconstruction.Mae: requires rows with at least one feature, because numpy's mean of an empty row is NaN.
- Pandas index labels: `.loc` on the shared index of `X_train` and `y_train` is modelled as selection by position, which is the same selection for a split with unique index labels.
- Evaluation.ConfusionOf: always a 2×2 matrix over labels 0 and 1. `confusion_matrix` without a `labels` argument shrinks to 1×1 when only one class appears in both labellings.
- Evaluation.Confusion.Precision: the warning that scikit-learn emits with its 0.0 on a zero denominator is not modelled; the same applies to Recall and F1.
- The trimming factor: fixed at 2 as written, so the limit behaviour as the factor grows is not stated.
- The clean test subset (lines 36-37): it is computed by the same `CleanSubset`, and used only as validation data while training the autoencoder (line 86), which is left out.
