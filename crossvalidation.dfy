/**
 * Cross-validation: the set-up that checks the data and splits the samples
 * into folds (stratified for classification labels, plain for regression
 * labels), and the rounds that hold each fold out as the test set, train a
 * model on the other folds and score it on the held-out one.
 */
module Validation {
  import opened Outcome
  import opened Counting
  import opened Definitions
  import opened BaseModels
  import opened TreeModels
  import opened Folding
  import opened Stratification

  /** A built set-up: the data, their labels, the fold count and the folds
      of sample indices. */
  datatype CrossValidation = CrossValidation(data: Matrix, labels: Labels, numberOfFolds: int,
                                             foldsIndices: seq<seq<int>>)

  /** One label per row, as many folds as asked for, the folds partition
      the samples and none of them is empty. */
  predicate Valid(cv: CrossValidation)
  {
    |cv.data.rows| == |cv.labels.labelData| && |cv.foldsIndices| == cv.numberOfFolds
    && Partition(cv.foldsIndices, |cv.data.rows|)
    && Bounded(cv.foldsIndices, |cv.data.rows|)
    && forall f :: 0 <= f < |cv.foldsIndices| ==> |cv.foldsIndices[f]| > 0
  }

  /** Every index in the folds is one of the `n` samples. */
  predicate Bounded(folds: seq<seq<int>>, n: nat)
  {
    forall f, j :: 0 <= f < |folds| && 0 <= j < |folds[f]| ==> 0 <= folds[f][j] < n
  }

  /** When the set-up fails: a row count that differs from the label count,
      a fold count outside `(1, n]`, or, for classification labels, any
      reason stratified splitting fails. */
  predicate Rejects(data: Matrix, labels: Labels, numberOfFolds: int)
  {
    |data.rows| != |labels.labelData| || numberOfFolds <= 1 || numberOfFolds > |data.rows|
    || (labels.labelType == Classification && StratifiedRejects(labels, numberOfFolds))
  }

  /** The constructor: checks the sizes and the fold count, then splits the
      samples, stratified by class for classification labels and into
      consecutive slices of the (possibly shuffled) index list for
      regression labels. */
  method NewCrossValidation(data: Matrix, labels: Labels, numberOfFolds: int, shuffled: Option<seq<int>>)
    returns (r: Result<CrossValidation>)
    requires shuffled.Some? ==> Permutes(shuffled.value, |labels.labelData|)
    ensures r.Failure? <==> Rejects(data, labels, numberOfFolds)
    ensures r.Success? ==> Valid(r.value)
    ensures r.Success? ==> r.value.data == data && r.value.labels == labels && r.value.numberOfFolds == numberOfFolds
    ensures r.Success? && labels.labelType == Classification ==>
              r.value.foldsIndices == StratifiedFolds(labels.labelData, numberOfFolds)
    ensures r.Success? && labels.labelType == Regression ==>
              r.value.foldsIndices == Folds(Order(|labels.labelData|, shuffled), numberOfFolds)
  {
    var numberOfData := |data.rows|;
    if numberOfData != |labels.labelData| {
      return Failure("Provided data and label sizes mismatch");
    }
    if numberOfFolds <= 1 || numberOfFolds > numberOfData {
      return Failure("Number of folds must be greater than one and no larger than number of data");
    }
    var folds := SplitSamples(labels, numberOfFolds, shuffled);
    if folds.Failure? {
      return Failure(folds.error);
    }
    PartitionBounded(folds.value, numberOfData);
    return Success(CrossValidation(data, labels, numberOfFolds, folds.value));
  }

  /** The folds of the set-up once the sizes and the fold count are
      checked: stratified for classification labels, plain for regression
      labels. */
  method SplitSamples(labels: Labels, numberOfFolds: int, shuffled: Option<seq<int>>)
    returns (r: Result<seq<seq<int>>>)
    requires 1 < numberOfFolds <= |labels.labelData|
    requires shuffled.Some? ==> Permutes(shuffled.value, |labels.labelData|)
    ensures r.Failure? <==> labels.labelType == Classification && StratifiedRejects(labels, numberOfFolds)
    ensures r.Success? ==> |r.value| == numberOfFolds && Partition(r.value, |labels.labelData|)
    ensures r.Success? ==> forall f :: 0 <= f < |r.value| ==> |r.value[f]| > 0
    ensures r.Success? && labels.labelType == Classification ==>
              r.value == StratifiedFolds(labels.labelData, numberOfFolds)
    ensures r.Success? && labels.labelType == Regression ==>
              r.value == Folds(Order(|labels.labelData|, shuffled), numberOfFolds)
  {
    match labels.labelType {
      case Classification =>
        r := StratifiedKFolds(labels, numberOfFolds);
        if r.Success? {
          StratifiedPartition(labels.labelData, numberOfFolds);
          StratifiedFoldsNonEmpty(labels, numberOfFolds);
        }
      case Regression =>
        r := KFolds(|labels.labelData|, numberOfFolds, shuffled);
        KFoldsPartition(Order(|labels.labelData|, shuffled), |labels.labelData|, numberOfFolds);
    }
  }

  // The rounds

  /** The samples of every fold before `g` except fold `round`, fold after
      fold: the training samples of round `round` once `g` reaches the fold
      count. */
  function OtherFolds(folds: seq<seq<int>>, round: int, g: int): (r: seq<int>)
    requires 0 <= g <= |folds|
    ensures forall j :: 0 <= j < |r| ==> InOtherFold(folds, round, g, r[j])
  {
    if g == 0 then []
    else
      var before := OtherFolds(folds, round, g - 1);
      var current := if g - 1 == round then [] else folds[g - 1];
      OtherFoldAppend(folds, round, g, before, current);
      before + current
  }

  /** `x` is in a fold before `g` other than fold `round`. */
  predicate InOtherFold(folds: seq<seq<int>>, round: int, g: int, x: int)
    requires g <= |folds|
  {
    exists f, i :: 0 <= f < g && f != round && 0 <= i < |folds[f]| && x == folds[f][i]
  }

  lemma OtherFoldAppend(folds: seq<seq<int>>, round: int, g: int, before: seq<int>, current: seq<int>)
    requires 0 < g <= |folds|
    requires forall j :: 0 <= j < |before| ==> InOtherFold(folds, round, g - 1, before[j])
    requires current == if g - 1 == round then [] else folds[g - 1]
    ensures forall j :: 0 <= j < |before + current| ==> InOtherFold(folds, round, g, (before + current)[j])
  {
    forall j | 0 <= j < |before + current|
      ensures InOtherFold(folds, round, g, (before + current)[j])
    {
      if j < |before| {
        assert InOtherFold(folds, round, g - 1, before[j]);
        var f, i :| 0 <= f < g - 1 && f != round && 0 <= i < |folds[f]| && before[j] == folds[f][i];
        assert (before + current)[j] == folds[f][i];
      } else {
        assert (before + current)[j] == folds[g - 1][j - |before|];
      }
    }
  }

  /** Leaving one fold out leaves all samples but that fold's. */
  lemma {:induction false} OtherFoldsSize(folds: seq<seq<int>>, round: int, g: int)
    requires 0 <= round < |folds| && 0 <= g <= |folds|
    ensures |OtherFolds(folds, round, g)| + (if round < g then |folds[round]| else 0) == |Flatten(folds[..g])|
  {
    if g > 0 {
      OtherFoldsSize(folds, round, g - 1);
      assert folds[..g][..g - 1] == folds[..g - 1];
    }
  }

  /** Every index in a fold of a partition of `0..n-1` is a sample. */
  lemma FoldInRange(folds: seq<seq<int>>, n: nat, f: int)
    requires Partition(folds, n) && 0 <= f < |folds|
    ensures forall j :: 0 <= j < |folds[f]| ==> 0 <= folds[f][j] < n
  {
    forall j | 0 <= j < |folds[f]|
      ensures 0 <= folds[f][j] < n
    {
      var x := folds[f][j];
      FlattenHolds(folds, f, j);
      assert x in multiset(Range(0, n));
      RangeMultiplicity(n, x);
    }
  }

  /** The folds of a partition of `0..n-1` hold only samples. */
  lemma PartitionBounded(folds: seq<seq<int>>, n: nat)
    requires Partition(folds, n)
    ensures Bounded(folds, n)
  {
    forall f | 0 <= f < |folds|
      ensures forall j :: 0 <= j < |folds[f]| ==> 0 <= folds[f][j] < n
    {
      FoldInRange(folds, n, f);
    }
  }

  lemma {:induction false} FlattenHolds(folds: seq<seq<int>>, f: int, j: int)
    requires 0 <= f < |folds| && 0 <= j < |folds[f]|
    ensures folds[f][j] in Flatten(folds)
  {
    var n := |folds| - 1;
    if f < n {
      FlattenHolds(folds[..n], f, j);
    }
  }

  /** The rows picked by an index list, in its order. */
  function RowsAt(data: Matrix, ids: seq<int>): (m: Matrix)
    requires forall j :: 0 <= j < |ids| ==> 0 <= ids[j] < |data.rows|
    ensures m.cols == data.cols && |m.rows| == |ids|
    ensures Rectangular(data) ==> Rectangular(m)
  {
    Matrix(data.cols, seq(|ids|, j requires 0 <= j < |ids| => data.rows[ids[j]]))
  }

  /** The labels picked by an index list, in its order. */
  function LabelsAt(labels: Labels, ids: seq<int>): (l: Labels)
    requires forall j :: 0 <= j < |ids| ==> 0 <= ids[j] < |labels.labelData|
    ensures l.labelType == labels.labelType && |l.labelData| == |ids|
  {
    Labels(labels.labelType, seq(|ids|, j requires 0 <= j < |ids| => labels.labelData[ids[j]]))
  }

  /** Picking by a concatenation picks by each part in turn. */
  lemma PickedAppend(data: Matrix, labels: Labels, a: seq<int>, b: seq<int>)
    requires forall j :: 0 <= j < |a| ==> 0 <= a[j] < |data.rows| && a[j] < |labels.labelData|
    requires forall j :: 0 <= j < |b| ==> 0 <= b[j] < |data.rows| && b[j] < |labels.labelData|
    ensures RowsAt(data, a + b).rows == RowsAt(data, a).rows + RowsAt(data, b).rows
    ensures LabelsAt(labels, a + b).labelData == LabelsAt(labels, a).labelData + LabelsAt(labels, b).labelData
  {
    assert forall j :: 0 <= j < |a| ==> a[j] == (a + b)[j];
    assert forall j :: 0 <= j < |b| ==> b[j] == (a + b)[|a| + j];
  }

  /** Copies the rows and labels of the samples `ids`, in order, after the
      ones already copied. */
  method CopyRows(data: Matrix, labels: Labels, ids: seq<int>, rows: seq<seq<real>>, labelData: seq<real>)
    returns (rows': seq<seq<real>>, labelData': seq<real>)
    requires forall j :: 0 <= j < |ids| ==> 0 <= ids[j] < |data.rows| && ids[j] < |labels.labelData|
    ensures rows' == rows + RowsAt(data, ids).rows
    ensures labelData' == labelData + LabelsAt(labels, ids).labelData
  {
    rows', labelData' := rows, labelData;
    for j := 0 to |ids|
      invariant rows' == rows + RowsAt(data, ids[..j]).rows
      invariant labelData' == labelData + LabelsAt(labels, ids[..j]).labelData
    {
      var dataIndex := ids[j];
      rows' := rows' + [data.rows[dataIndex]];
      labelData' := labelData' + [labels.labelData[dataIndex]];
    }
    assert ids[..|ids|] == ids;
  }

  /** Round `round` of the validation: the test set is fold `round`, the
      training set is every other fold in fold order, and together they use
      every sample once. */
  method SplitRound(cv: CrossValidation, round: int)
    returns (trainData: Matrix, trainLabels: Labels, testData: Matrix, testLabels: Labels)
    requires Valid(cv) && 0 <= round < cv.numberOfFolds
    ensures var fold := cv.foldsIndices[round];
      testData == RowsAt(cv.data, fold) && testLabels == LabelsAt(cv.labels, fold)
    ensures var others := OtherFolds(cv.foldsIndices, round, cv.numberOfFolds);
      trainData == RowsAt(cv.data, others) && trainLabels == LabelsAt(cv.labels, others)
    ensures |trainData.rows| == |cv.data.rows| - |cv.foldsIndices[round]|
  {
    var folds := cv.foldsIndices;
    var testRows, testLabelData := CopyRows(cv.data, cv.labels, folds[round], [], []);
    testData := Matrix(cv.data.cols, testRows);
    testLabels := Labels(cv.labels.labelType, testLabelData);

    var trainRows: seq<seq<real>> := [];
    var trainLabelData: seq<real> := [];
    for g := 0 to |folds|
      invariant trainRows == RowsAt(cv.data, OtherFolds(folds, round, g)).rows
      invariant trainLabelData == LabelsAt(cv.labels, OtherFolds(folds, round, g)).labelData
    {
      if g != round {
        PickedAppend(cv.data, cv.labels, OtherFolds(folds, round, g), folds[g]);
        trainRows, trainLabelData := CopyRows(cv.data, cv.labels, folds[g], trainRows, trainLabelData);
      }
    }
    trainData := Matrix(cv.data.cols, trainRows);
    trainLabels := Labels(cv.labels.labelType, trainLabelData);
    TrainSize(folds, |cv.data.rows|, round);
  }

  /** The training set of a round holds all samples but the held-out
      fold's. */
  lemma TrainSize(folds: seq<seq<int>>, n: nat, round: int)
    requires Partition(folds, n) && 0 <= round < |folds|
    ensures |OtherFolds(folds, round, |folds|)| == n - |folds[round]|
  {
    OtherFoldsSize(folds, round, |folds|);
    assert folds[..|folds|] == folds;
    assert |multiset(Flatten(folds))| == |multiset(Range(0, n))|;
  }

  /** `computeValidationLosses` for the tree classifier: an error when the
      labels are not classification labels; otherwise, round by round, the
      model is trained on the other folds, predicts the held-out fold, and
      the round's loss is the share of its samples predicted wrongly
      (`predictions[f]` is what the model trained in round `f` predicted
      for fold `f`). An error from training, predicting or scoring ends
      the rounds. */
  method ComputeValidationLosses(cv: CrossValidation, model: TreeClassifier)
    returns (r: Result<seq<real>>, ghost predictions: seq<seq<real>>)
    modifies model, model.tree
    requires Valid(cv) && Rectangular(cv.data)
    requires model.Valid() && BuilderFor(model.regularization) == DepthFirst
    ensures model.Valid()
    ensures cv.labels.labelType != Classification ==> r.Failure?
    ensures r.Success? ==> |r.value| == |predictions| == cv.numberOfFolds
    ensures r.Success? ==> forall f :: 0 <= f < |r.value| ==> 0.0 <= r.value[f] <= 1.0
    ensures r.Success? ==> forall f :: 0 <= f < |r.value| ==> FoldLoss(cv, f, predictions[f], r.value[f])
  {
    predictions := [];
    if cv.labels.labelType != Classification {
      return Failure("The learning model and labels have different problem types"), predictions;
    }
    var losses := Filled(cv.numberOfFolds, 0.0);
    ghost var tree := model.tree;
    for currentRoundId := 0 to cv.numberOfFolds
      invariant model.Valid() && model.tree == tree
      invariant BuilderFor(model.regularization) == DepthFirst
      invariant |losses| == cv.numberOfFolds && |predictions| == currentRoundId
      invariant forall f :: 0 <= f < |losses| ==> 0.0 <= losses[f] <= 1.0
      invariant forall f :: 0 <= f < currentRoundId ==> FoldLoss(cv, f, predictions[f], losses[f])
    {
      var loss, predicted := ValidationRound(cv, model, currentRoundId);
      if loss.Failure? {
        return Failure(loss.error), predictions;
      }
      losses := losses[currentRoundId := loss.value];
      predictions := predictions + [predicted];
    }
    return Success(losses), predictions;
  }

  /** The loss of fold `f` is the share of its samples whose prediction in
      `predicted` and whose label differ, both being class numbers. */
  ghost predicate FoldLoss(cv: CrossValidation, f: nat, predicted: seq<real>, loss: real)
    requires Valid(cv) && f < cv.numberOfFolds
  {
    var fold := cv.foldsIndices[f];
    |predicted| == |fold| > 0
    && loss == Placed(predicted, LabelsAt(cv.labels, fold).labelData) as real / |fold| as real
  }

  lemma RatioAtMostOne(p: nat, n: nat)
    requires 0 < n && p <= n
    ensures 0.0 <= p as real / n as real <= 1.0
  {
  }

  /** One round: train on the other folds, predict the held-out fold, and
      divide its loss by the fold's size. On success the model was grown on
      the rows and labels of the other folds, `predicted` is what it now
      predicts for the rows of the fold, and the loss is the share of the
      fold's samples whose prediction and label differ (both being class
      numbers). */
  method ValidationRound(cv: CrossValidation, model: TreeClassifier, round: int)
    returns (r: Result<real>, ghost predicted: seq<real>)
    modifies model, model.tree
    requires Valid(cv) && Rectangular(cv.data) && 0 <= round < cv.numberOfFolds
    requires model.Valid() && BuilderFor(model.regularization) == DepthFirst
    ensures model.Valid()
    ensures r.Success? ==> 0.0 <= r.value <= 1.0
    ensures r.Success? ==>
              var fold := cv.foldsIndices[round];
              var others := OtherFolds(cv.foldsIndices, round, cv.numberOfFolds);
              var test := RowsAt(cv.data, fold);
              model.modelTrained
              && GrownFrom(model.tree.nodes, model.tree.leafNodeToLabel, model.tree.maxDepthOfThisTree,
                           old(model.tree.leafNodeToLabel), LabelsAt(cv.labels, others).labelData,
                           model.numberOfClasses, model.regularization, Range(0, |others|))
              && model.Labels(test, Range(0, |test.rows|)) == Success(predicted)
              && FoldLoss(cv, round, predicted, r.value)
  {
    predicted := [];
    var trainData, trainLabels, testData, testLabels := SplitRound(cv, round);
    var trained := model.Fit(trainData, trainLabels);
    if trained.Failure? {
      return Failure(trained.error), predicted;
    }
    r, predicted := ScoreFold(model, testData, testLabels);
  }

  /** The second half of a round: the trained model predicts the held-out
      rows, and the loss is the share of them whose prediction and label
      differ (both being class numbers); an error from predicting or
      scoring is the result. */
  method ScoreFold(model: TreeClassifier, testData: Matrix, testLabels: Labels)
    returns (r: Result<real>, ghost predicted: seq<real>)
    requires model.Valid() && Rectangular(testData) && |testData.rows| > 0
    ensures r.Success? ==> 0.0 <= r.value <= 1.0
    ensures r.Success? ==>
              model.modelTrained && model.Labels(testData, Range(0, |testData.rows|)) == Success(predicted)
              && |predicted| == |testData.rows| == |testLabels.labelData|
              && r.value == Placed(predicted, testLabels.labelData) as real / |testData.rows| as real
  {
    predicted := [];
    var prediction := model.Predict(testData);
    if prediction.Failure? {
      return Failure(prediction.error), predicted;
    }
    predicted := prediction.value.labelData;
    var loss := ClassifierLoss(prediction.value, testLabels);
    if loss.Failure? {
      return Failure(loss.error), predicted;
    }
    var p := Placed(predicted, testLabels.labelData);
    RatioAtMostOne(p, |testData.rows|);
    return Success(loss.value / |testData.rows| as real), predicted;
  }
}
