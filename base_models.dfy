/**
 * What every model shares: the regularisation parameters the tree models
 * check at construction and the builder they pick, the input checks of the
 * classifier and regressor `train`, the classification loss, and the label
 * vector `predict` fills for a list of row indices.
 */
module BaseModels {
  import opened Outcome
  import opened Definitions
  import opened Counting
  import opened Samples
  import opened Utilities

  /** `std::numeric_limits<long>::max()`, the default depth limit. */
  const LongMax: int := 0x7fff_ffff_ffff_ffff

  datatype Regularization = Regularization(minSamplesInALeaf: int, minSamplesInANode: int,
                                           maxDepth: int, maxNumberOfLeafNodes: int)

  /** The defaults of the tree models: one sample per leaf and per node, no
      depth limit, and no leaf budget. */
  function DefaultRegularization(): (p: Regularization)
    ensures Validate(p) == Success(p)
  {
    Regularization(1, 1, LongMax, -1)
  }

  /** The constructor check of the tree and forest models: it throws when a
      sample minimum or the depth limit is not positive, or the leaf budget
      is 0 or below -1. */
  function Validate(p: Regularization): (r: Result<Regularization>)
    ensures r.Success? <==>
              p.minSamplesInALeaf >= 1 && p.minSamplesInANode >= 1 && p.maxDepth >= 1
              && (p.maxNumberOfLeafNodes == -1 || p.maxNumberOfLeafNodes >= 1)
    ensures r.Success? ==> r.value == p
  {
    if p.minSamplesInALeaf <= 0 || p.minSamplesInANode <= 0 || p.maxDepth <= 0
       || p.maxNumberOfLeafNodes == 0 || p.maxNumberOfLeafNodes < -1 then
      Failure("user input regularization parameter cannot be smaller than 1")
    else Success(p)
  }

  datatype BuilderKind = DepthFirst | BestFirst

  /** The builder `train` uses: depth first without a leaf budget, best
      first with one. */
  function BuilderFor(p: Regularization): BuilderKind
  {
    if p.maxNumberOfLeafNodes < 0 then DepthFirst else BestFirst
  }

  /** For parameters that pass the check, the depth-first builder is chosen
      exactly when there is no leaf budget (-1), and the best-first builder
      exactly when the budget is a positive number of leaves. */
  lemma BuilderChoice(p: Regularization)
    requires Validate(p).Success?
    ensures BuilderFor(p) == DepthFirst <==> p.maxNumberOfLeafNodes == -1
    ensures BuilderFor(p) == BestFirst <==> p.maxNumberOfLeafNodes >= 1
  {
  }

  // The classification loss

  /** The mismatches the classification loss counts: positions where both
      labels round to a class number (so that the -1 of a position
      `predict` skipped is ignored) and the labels differ. */
  function Placed(a: seq<real>, b: seq<real>): (n: nat)
    requires |a| == |b|
    ensures n <= Mismatches(a, b)
  {
    if |a| == 0 then 0
    else
      var m := |a| - 1;
      Placed(a[..m], b[..m])
      + (if LRound(a[m]) >= 0 && LRound(b[m]) >= 0 && a[m] != b[m] then 1 else 0)
  }

  /** The loss of the classifiers: the number of counted mismatches, or an
      error when either vector is not a classification vector or their
      sizes differ. */
  method ClassifierLoss(predictedLabels: Labels, testLabels: Labels) returns (r: Result<real>)
    ensures r.Failure? <==>
              predictedLabels.labelType != Classification || testLabels.labelType != Classification
              || |predictedLabels.labelData| != |testLabels.labelData|
    ensures r.Success? ==> r.value == Placed(predictedLabels.labelData, testLabels.labelData) as real
  {
    if predictedLabels.labelType != Classification || testLabels.labelType != Classification {
      return Failure("Input labelType must be Classification");
    }
    var p, t := predictedLabels.labelData, testLabels.labelData;
    if |p| != |t| {
      return Failure("The input two labels have different sizes");
    }
    var loss := 0.0;
    for dataId := 0 to |p|
      invariant loss == Placed(p[..dataId], t[..dataId]) as real
    {
      assert p[..dataId + 1][..dataId] == p[..dataId] && t[..dataId + 1][..dataId] == t[..dataId];
      if LRound(p[dataId]) >= 0 && LRound(t[dataId]) >= 0 {
        loss := loss + if p[dataId] != t[dataId] then 1.0 else 0.0;
      }
    }
    assert p[..|p|] == p && t[..|t|] == t;
    r := Success(loss);
  }

  /** Without -1 placeholders (every label above -1/2) the loss counts every
      differing position, as the zero-one loss does. */
  lemma {:induction false} PlacedWithoutPlaceholders(a: seq<real>, b: seq<real>)
    requires |a| == |b|
    requires forall i :: 0 <= i < |a| ==> a[i] > -0.5 && b[i] > -0.5
    ensures Placed(a, b) == Mismatches(a, b)
  {
    if |a| > 0 {
      var m := |a| - 1;
      PlacedWithoutPlaceholders(a[..m], b[..m]);
      LRoundNonNegative(a[m]);
      LRoundNonNegative(b[m]);
    }
  }

  /** The loss is zero exactly when the labels agree at every position
      where neither is a placeholder, and it does not depend on which vector
      is the prediction. */
  lemma {:induction false} PlacedZero(a: seq<real>, b: seq<real>)
    requires |a| == |b|
    ensures Placed(a, b) == 0 <==>
              forall i :: 0 <= i < |a| && LRound(a[i]) >= 0 && LRound(b[i]) >= 0 ==> a[i] == b[i]
    ensures Placed(a, b) == Placed(b, a)
  {
    if |a| > 0 {
      var m := |a| - 1;
      PlacedZero(a[..m], b[..m]);
      assert forall i :: 0 <= i < m ==> a[..m][i] == a[i] && b[..m][i] == b[i];
    }
  }

  /** A prediction that leaves position `i` at -1 does not count there,
      whatever the test label. */
  lemma {:induction false} PlaceholderIgnored(a: seq<real>, b: seq<real>, i: int)
    requires |a| == |b| && 0 <= i < |a|
    ensures Placed(a[i := -1.0], b) == Placed(a, b) - (if LRound(a[i]) >= 0 && LRound(b[i]) >= 0 && a[i] != b[i] then 1 else 0)
  {
    var m := |a| - 1;
    LRoundNonNegative(-1.0);
    if i < m {
      assert a[i := -1.0][..m] == a[..m][i := -1.0];
      PlaceholderIgnored(a[..m], b[..m], i);
    } else {
      assert a[i := -1.0][..m] == a[..m];
    }
  }

  // Input checks of `train`

  /** Every class of `0..K-1` has at least one sample among `labels`. */
  predicate Represented(labels: seq<real>, K: nat)
  {
    forall k :: 0 <= k < K ==> HasClass(labels, k)
  }

  /** Some label is of class `k`. */
  predicate HasClass(labels: seq<real>, k: int)
  {
    exists i :: 0 <= i < |labels| && ClassOf(labels[i]) == k
  }

  /** The classifier `train` check: the labels must be classification
      labels, the matrix must have the model's column count and one row per
      label, every label must lie in `[0, K)`, and every class must occur.
      On success it hands the index list `0..n-1` to the model. */
  method CheckClassifierInput(data: Matrix, trainLabels: Labels, numberOfFeatures: int, K: nat)
    returns (r: Result<seq<int>>)
    ensures r.Failure? <==>
              trainLabels.labelType != Classification || data.cols != numberOfFeatures
              || |data.rows| != |trainLabels.labelData|
              || (exists i :: 0 <= i < |trainLabels.labelData| && !(0.0 <= trainLabels.labelData[i] < K as real))
              || !Represented(trainLabels.labelData, K)
    ensures r.Success? ==> r.value == Range(0, |data.rows|)
    ensures r.Success? ==> Labelled(r.value, trainLabels.labelData, K)
  {
    if trainLabels.labelType != Classification {
      return Failure("Input labelType must be Classification");
    }
    var labelData := trainLabels.labelData;
    if data.cols != numberOfFeatures {
      return Failure("invalid input data: wrong number of features");
    }
    if |data.rows| != |labelData| {
      return Failure("data and label size mismatch");
    }
    var n := |data.rows|;
    var labelsCount := Zeros(K);
    for labelIndex := 0 to n
      invariant forall i :: 0 <= i < labelIndex ==> 0.0 <= labelData[i] < K as real
      invariant labelsCount == ClassCounts(Range(0, labelIndex), labelData, K)
    {
      if labelData[labelIndex] < 0.0 || labelData[labelIndex] >= K as real {
        return Failure("label out of the range of classes");
      }
      assert Range(0, labelIndex + 1)[..labelIndex] == Range(0, labelIndex);
      ClassOfTruncates(labelData[labelIndex]);
      var k := ClassOf(labelData[labelIndex]);
      labelsCount := labelsCount[k := labelsCount[k] + 1];
    }
    assert Range(0, n)[..n] == Range(0, n);
    assert Labelled(Range(0, n), labelData, K) by {
      forall i | 0 <= i < n
        ensures 0 <= ClassOf(labelData[i]) < K
      {
        ClassOfTruncates(labelData[i]);
      }
    }
    for classIndex := 0 to K
      invariant forall k :: 0 <= k < classIndex ==> HasClass(labelData, k)
    {
      ClassCountsCount(Range(0, n), labelData, K, classIndex);
      if labelsCount[classIndex] == 0 {
        NoneCounted(Range(0, n), labelData, classIndex);
        return Failure("a class has no training data");
      }
      SomeCounted(Range(0, n), labelData, classIndex);
    }
    return Success(Range(0, n));
  }

  /** No sample of class `k` among `0..n-1` means no label of class `k`. */
  lemma NoneCounted(ids: seq<int>, labels: seq<real>, k: int)
    requires ids == Range(0, |labels|) && Count(ids, IsClass(labels, k)) == 0
    ensures !HasClass(labels, k)
  {
    if i :| 0 <= i < |labels| && ClassOf(labels[i]) == k {
      CountedMember(ids, IsClass(labels, k), i);
    }
  }

  /** A positive count of class `k` among `0..n-1` means some label of class
      `k`. */
  lemma SomeCounted(ids: seq<int>, labels: seq<real>, k: int)
    requires ids == Range(0, |labels|) && Count(ids, IsClass(labels, k)) > 0
    ensures HasClass(labels, k)
  {
    var j := CountedWitness(ids, IsClass(labels, k));
    assert ids[j] == j;
  }

  /** A member satisfying `p` is counted. */
  lemma {:induction false} CountedMember<T>(s: seq<T>, p: T -> bool, i: int)
    requires 0 <= i < |s| && p(s[i])
    ensures Count(s, p) > 0
  {
    if i < |s| - 1 {
      CountedMember(s[..|s| - 1], p, i);
    }
  }

  /** A positive count has a member that satisfies `p`. */
  lemma {:induction false} CountedWitness<T>(s: seq<T>, p: T -> bool) returns (i: int)
    requires Count(s, p) > 0
    ensures 0 <= i < |s| && p(s[i])
  {
    if p(s[|s| - 1]) {
      i := |s| - 1;
    } else {
      i := CountedWitness(s[..|s| - 1], p);
    }
  }

  /** The regressor `train` check: regression labels, the model's column
      count, and one row per label; on success the index list `0..n-1`. */
  function CheckRegressorInput(data: Matrix, trainLabels: Labels, numberOfFeatures: int): (r: Result<seq<int>>)
    ensures r.Failure? <==>
              trainLabels.labelType != Regression || data.cols != numberOfFeatures
              || |data.rows| != |trainLabels.labelData|
    ensures r.Success? ==> |r.value| == |data.rows| && forall i :: 0 <= i < |r.value| ==> r.value[i] == i
  {
    if trainLabels.labelType != Regression then Failure("Input labelType must be Regression")
    else if data.cols != numberOfFeatures then Failure("invalid input data: wrong number of features")
    else if |data.rows| != |trainLabels.labelData| then Failure("data and label size mismatch")
    else Success(Range(0, |data.rows|))
  }

  // The label vector of `predict`

  /** The label vector after writing `values[j]` at position `ids[j]` for
      each `j` in turn into `base`. */
  function Scattered(base: seq<real>, ids: seq<int>, values: seq<real>): (r: seq<real>)
    requires |ids| == |values| && forall j :: 0 <= j < |ids| ==> 0 <= ids[j] < |base|
    ensures |r| == |base|
  {
    if |ids| == 0 then base
    else
      var m := |ids| - 1;
      Scattered(base, ids[..m], values[..m])[ids[m] := values[m]]
  }

  /** Entry `j` of `ids` is the last one naming position `i`. */
  predicate LastNaming(ids: seq<int>, i: int, j: int)
  {
    0 <= j < |ids| && ids[j] == i && forall j' :: j < j' < |ids| ==> ids[j'] != i
  }

  /** A position no index names keeps its base value; a named position holds
      the value written by the last index that names it. */
  lemma {:induction false} ScatteredAt(base: seq<real>, ids: seq<int>, values: seq<real>, i: int)
    requires |ids| == |values| && forall j :: 0 <= j < |ids| ==> 0 <= ids[j] < |base|
    requires 0 <= i < |base|
    ensures i !in ids ==> Scattered(base, ids, values)[i] == base[i]
    ensures i in ids ==> exists j :: LastNaming(ids, i, j) && Scattered(base, ids, values)[i] == values[j]
  {
    if |ids| > 0 {
      var m := |ids| - 1;
      var front, vs := ids[..m], values[..m];
      ScatteredAt(base, front, vs, i);
      assert ids == front + [ids[m]];
      if ids[m] == i {
        assert LastNaming(ids, i, m);
      } else if i in front {
        var j :| LastNaming(front, i, j) && Scattered(base, front, vs)[i] == vs[j];
        assert LastNaming(ids, i, j);
      }
    }
  }

  /** The vector `predict` starts from: -1 at every one of `n` positions. */
  function Unpredicted(n: nat): (r: seq<real>)
    ensures |r| == n && forall i :: 0 <= i < n ==> r[i] == -1.0
  {
    Filled(n, -1.0)
  }
}
