/**
 * The single-tree models. `TreeClassifier` grows a classification tree with
 * the depth-first builder and predicts the class with the most training
 * samples in the reached leaf; `TreeRegressor` checks the same parameters
 * and predicts the value stored in the reached leaf. Both wrap the base-class
 * input checks and the `predict` over a list of row indices.
 */
module TreeModels {
  import opened Outcome
  import opened Definitions
  import opened Counting
  import opened Samples
  import opened Impurity
  import opened Records
  import opened Criterion
  import opened Splitting
  import opened Trees
  import opened Building
  import opened Voting
  import opened BaseModels

  /** Grows one classification tree on the training indices `trainIndices`
      (which may repeat) with a fresh criterion, splitter and depth-first
      builder: the tree is then grown from them as `Grown` states, with
      `leaves` the leaf windows and `arranged` the reordered indices. */
  method GrowTree(data: seq<seq<real>>, labels: seq<real>, K: nat, rule: Rule, p: Regularization,
                  numberOfFeaturesToSplit: int, F: nat, trainIndices: seq<int>, tree: Tree<seq<int>>)
    returns (ghost leaves: seq<StackRecord>, ghost arranged: seq<int>)
    modifies tree
    requires Validate(p).Success? && tree.Valid()
    requires forall v: seq<int> :: |v| == K ==> tree.admits(v)
    requires forall r :: 0 <= r < |data| ==> |data[r]| == F
    requires |labels| == |data| && Labelled(trainIndices, labels, K)
    ensures tree.Valid()
    ensures Grown(tree.nodes, tree.leafNodeToLabel, tree.maxDepthOfThisTree, old(tree.leafNodeToLabel),
                  labels, K, p, trainIndices, leaves, arranged)
  {
    var builder := NewBuilder(data, labels, K, rule, p, numberOfFeaturesToSplit, F, trainIndices);
    ghost var table0 := tree.leafNodeToLabel;
    leaves := builder.Build(tree);
    arranged := builder.splitter.sampleIndices[..];
    StoredEach(tree.nodes, tree.leafNodeToLabel, arranged, labels, K, leaves, |table0|, p.maxDepth, p.minSamplesInALeaf);
  }

  /** A fresh depth-first builder over a fresh splitter and criterion, whose
      index array holds the training indices and whose limits are the
      checked parameters. */
  method NewBuilder(data: seq<seq<real>>, labels: seq<real>, K: nat, rule: Rule, p: Regularization,
                    numberOfFeaturesToSplit: int, F: nat, trainIndices: seq<int>)
    returns (builder: DepthFirstBuilder)
    requires Validate(p).Success?
    requires forall r :: 0 <= r < |data| ==> |data[r]| == F
    requires |labels| == |data| && Labelled(trainIndices, labels, K)
    ensures fresh(builder.splitter) && fresh(builder.splitter.criterion)
    ensures fresh(builder.splitter.sampleIndices) && fresh(builder.splitter.featureIndices)
    ensures builder.Settings() && builder.splitter.Valid()
    ensures builder.splitter.sampleIndices[..] == trainIndices
    ensures builder.splitter.criterion.labels == labels && builder.splitter.criterion.numberOfClasses == K
    ensures builder.maxDepth == p.maxDepth && builder.minSamplesInALeaf == p.minSamplesInALeaf
  {
    var criterion := new ClassificationCriterion(labels, K, rule);
    var sampleIndices := new int[|trainIndices|](i requires 0 <= i < |trainIndices| => trainIndices[i]);
    assert sampleIndices[..] == trainIndices;
    var splitter := new Splitter(data, criterion, p.minSamplesInALeaf, numberOfFeaturesToSplit, sampleIndices, F);
    builder := new DepthFirstBuilder(p.minSamplesInALeaf, p.minSamplesInANode, p.maxDepth, splitter);
  }

  /** The tree state `nodes`, `table`, `depth` was grown from the leaf
      table `table0` on the training indices `trainIndices` with labels
      `labels` of `K` classes and parameters `p`: `arranged` reorders the
      training indices, the leaf windows `leaves` tile it end to end, each
      leaf has an entry, appended after `table0` in order, naming a leaf
      node and holding the class counts of its window, and the recorded
      depth is within `p.maxDepth` and that of some leaf. */
  ghost predicate Grown(nodes: seq<Node>, table: seq<(int, seq<int>)>, depth: int, table0: seq<(int, seq<int>)>,
                        labels: seq<real>, K: nat, p: Regularization, trainIndices: seq<int>,
                        leaves: seq<StackRecord>, arranged: seq<int>)
  {
    |arranged| == |trainIndices| && multiset(arranged) == multiset(trainIndices)
    && Tiles(leaves, 0, |trainIndices|)
    && |table| == |table0| + |leaves| && table[..|table0|] == table0
    && AllStored(nodes, table, arranged, labels, K, leaves, |table0|, p.maxDepth, p.minSamplesInALeaf)
    && 0 <= depth <= p.maxDepth
    && exists j :: 0 <= j < |leaves| && leaves[j].nodeDepth == depth
  }

  /** Some leaf windows and some reordering of the training indices witness
      that the tree state was grown on them. */
  ghost predicate GrownFrom(nodes: seq<Node>, table: seq<(int, seq<int>)>, depth: int, table0: seq<(int, seq<int>)>,
                            labels: seq<real>, K: nat, p: Regularization, trainIndices: seq<int>)
  {
    exists leaves, arranged :: Grown(nodes, table, depth, table0, labels, K, p, trainIndices, leaves, arranged)
  }

  /** The part of a tree that growing it sets: nodes, leaf table, depth. */
  type TreeState = (seq<Node>, seq<(int, seq<int>)>, int)

  function StateOf(tree: Tree<seq<int>>): TreeState
    reads tree
  {
    (tree.nodes, tree.leafNodeToLabel, tree.maxDepthOfThisTree)
  }

  /** What one tree is grown from: the leaf table it starts with, the
      labels of `K` classes, the parameters and the training indices. */
  datatype GrowInput = GrowInput(table0: seq<(int, seq<int>)>, labels: seq<real>, K: nat, p: Regularization,
                                 trainIndices: seq<int>)

  /** A tree state with the leaf windows and the reordered training
      indices that witness how it was grown. */
  type GrownRecord = (TreeState, seq<StackRecord>, seq<int>)

  ghost predicate GrownBy(r: GrownRecord, g: GrowInput)
  {
    Grown(r.0.0, r.0.1, r.0.2, g.table0, g.labels, g.K, g.p, g.trainIndices, r.1, r.2)
  }

  /** Record `i` of `rs` was grown from input `i` of `gs`, for every `i`;
      the loops that grow several trees keep this for the trees so far. */
  ghost predicate AllGrown(rs: seq<GrownRecord>, gs: seq<GrowInput>)
    decreases |rs|
  {
    |rs| == |gs|
    && (|rs| == 0 || (AllGrown(rs[..|rs| - 1], gs[..|gs| - 1]) && GrownBy(rs[|rs| - 1], gs[|gs| - 1])))
  }

  lemma AllGrownAppend(rs: seq<GrownRecord>, gs: seq<GrowInput>, r: GrownRecord, g: GrowInput)
    requires AllGrown(rs, gs) && GrownBy(r, g)
    ensures AllGrown(rs + [r], gs + [g])
  {
    assert (rs + [r])[..|rs|] == rs;
    assert (gs + [g])[..|gs|] == gs;
  }

  /** `AllGrownAppend` for a loop over the inputs `gs`: the record of input
      `n` extends the records of the first `n`. */
  lemma AllGrownNext(rs: seq<GrownRecord>, gs: seq<GrowInput>, n: nat, r: GrownRecord)
    requires n < |gs| && AllGrown(rs, gs[..n]) && GrownBy(r, gs[n])
    ensures AllGrown(rs + [r], gs[..n + 1])
  {
    AllGrownAppend(rs, gs[..n], r, gs[n]);
    assert gs[..n] + [gs[n]] == gs[..n + 1];
  }

  /** Every tree of the records was grown from its input. */
  lemma {:induction false} AllGrownEach(rs: seq<GrownRecord>, gs: seq<GrowInput>)
    requires AllGrown(rs, gs)
    ensures |rs| == |gs|
    ensures forall i :: 0 <= i < |rs| ==>
              GrownFrom(rs[i].0.0, rs[i].0.1, rs[i].0.2, gs[i].table0, gs[i].labels, gs[i].K, gs[i].p, gs[i].trainIndices)
    decreases |rs|
  {
    if |rs| > 0 {
      var n := |rs|;
      AllGrownEach(rs[..n - 1], gs[..n - 1]);
      assert forall i :: 0 <= i < n - 1 ==> rs[..n - 1][i] == rs[i] && gs[..n - 1][i] == gs[i];
      assert GrownBy(rs[n - 1], gs[n - 1]);
    }
  }

  /** The leaf entries from `base` on hold, in order, the leaves `leaves`
      with the class counts of their windows of `a`. */
  ghost predicate AllStored(nodes: seq<Node>, table: seq<(int, seq<int>)>, a: seq<int>, labels: seq<real>, K: nat,
                            leaves: seq<StackRecord>, base: int, maxDepth: int, minSamplesInALeaf: int)
  {
    forall j :: 0 <= j < |leaves| ==> Stored(nodes, table, a, labels, K, leaves[j], base + j, maxDepth, minSamplesInALeaf)
  }

  lemma StoredEach(nodes: seq<Node>, table: seq<(int, seq<int>)>, a: seq<int>, labels: seq<real>, K: nat,
                   leaves: seq<StackRecord>, base: int, maxDepth: int, minSamplesInALeaf: int)
    requires forall j :: 0 <= j < |leaves| ==> Stored(nodes, table, a, labels, K, leaves[j], base + j, maxDepth, minSamplesInALeaf)
    ensures AllStored(nodes, table, a, labels, K, leaves, base, maxDepth, minSamplesInALeaf)
  {
  }

  /** Every leaf payload of `tree` is a count vector of `K` entries. */
  ghost predicate CountVectors(tree: Tree<seq<int>>, K: nat)
    reads tree
  {
    forall j :: 0 <= j < |tree.leafNodeToLabel| ==> |tree.leafNodeToLabel[j].1| == K
  }

  /** Growing a tree whose payloads are count vectors of `K` entries adds
      only such vectors. */
  lemma GrownCountVectors(old_table: seq<(int, seq<int>)>, tree: Tree<seq<int>>, leaves: seq<StackRecord>,
                          arranged: seq<int>, labels: seq<real>, K: nat, p: Regularization)
    requires forall j :: 0 <= j < |old_table| ==> |old_table[j].1| == K
    requires |tree.leafNodeToLabel| == |old_table| + |leaves|
    requires tree.leafNodeToLabel[..|old_table|] == old_table
    requires AllStored(tree.nodes, tree.leafNodeToLabel, arranged, labels, K, leaves,
                       |old_table|, p.maxDepth, p.minSamplesInALeaf)
    ensures CountVectors(tree, K)
  {
    forall j | 0 <= j < |tree.leafNodeToLabel|
      ensures |tree.leafNodeToLabel[j].1| == K
    {
      if j < |old_table| {
        assert tree.leafNodeToLabel[j] == tree.leafNodeToLabel[..|old_table|][j];
      } else {
        var q := j - |old_table|;
        assert Stored(tree.nodes, tree.leafNodeToLabel, arranged, labels, K, leaves[q],
                      |old_table| + q, p.maxDepth, p.minSamplesInALeaf);
      }
    }
  }

  /** The class `predictOne` picks from a leaf's count vector: the smallest
      class with the largest count, as a label. */
  function Winner(counts: seq<int>): (w: real)
    ensures |counts| > 0 ==> IsClassLabel(w, |counts|)
    ensures |counts| > 0 ==> forall k :: 0 <= k < |counts| ==> counts[k] <= counts[w.Floor]
    ensures |counts| > 0 ==> forall k :: 0 <= k < w.Floor ==> counts[k] < counts[w.Floor]
  {
    FirstMax(counts) as real
  }

  class TreeClassifier {
    const numberOfFeatures: nat
    const numberOfClasses: nat
    const regularization: Regularization
    const rule: Rule
    var numberOfFeaturesToSplit: int
    const tree: Tree<seq<int>>
    var modelTrained: bool

    /** The parameters passed the check, and the tree is a valid tree over
        the model's features whose leaves hold count vectors of one entry
        per class. */
    ghost predicate Valid()
      reads this, tree
    {
      Validate(regularization).Success?
      && tree.Valid() && tree.numberOfFeatures == numberOfFeatures
      && (forall v: seq<int> :: tree.admits(v) <==> |v| == numberOfClasses)
      && CountVectors(tree, numberOfClasses)
    }

    /** The constructor once the parameters passed the check: all features
        are candidates for a split, and the tree is empty. */
    constructor(numberOfFeatures: nat, numberOfClasses: nat, regularization: Regularization, rule: Rule)
      requires Validate(regularization).Success?
      ensures this.numberOfFeatures == numberOfFeatures && this.numberOfClasses == numberOfClasses
      ensures this.regularization == regularization && this.rule == rule
      ensures numberOfFeaturesToSplit == numberOfFeatures && !modelTrained
      ensures fresh(tree) && tree.nodes == [] && tree.leafNodeToLabel == []
      ensures Valid()
    {
      this.numberOfFeatures := numberOfFeatures;
      this.numberOfClasses := numberOfClasses;
      this.regularization := regularization;
      this.rule := rule;
      numberOfFeaturesToSplit := numberOfFeatures;
      tree := new Tree(numberOfFeatures, CountsOfLength(numberOfClasses));
      modelTrained := false;
    }

    /** The derived `train`: grows the tree depth first on `trainIndices`
        and marks the model trained. */
    method Train(data: Matrix, trainLabels: Labels, trainIndices: seq<int>)
      returns (ghost leaves: seq<StackRecord>, ghost arranged: seq<int>)
      modifies this, tree
      requires Valid() && BuilderFor(regularization) == DepthFirst
      requires Rectangular(data) && data.cols == numberOfFeatures
      requires |trainLabels.labelData| == |data.rows| && Labelled(trainIndices, trainLabels.labelData, numberOfClasses)
      ensures Valid() && modelTrained && numberOfFeaturesToSplit == old(numberOfFeaturesToSplit)
      ensures Grown(tree.nodes, tree.leafNodeToLabel, tree.maxDepthOfThisTree, old(tree.leafNodeToLabel),
                    trainLabels.labelData, numberOfClasses, regularization, trainIndices, leaves, arranged)
    {
      ghost var table0 := tree.leafNodeToLabel;
      modelTrained := true;
      leaves, arranged := GrowTree(data.rows, trainLabels.labelData, numberOfClasses, rule, regularization,
                                   numberOfFeaturesToSplit, numberOfFeatures, trainIndices, tree);
      GrownCountVectors(table0, tree, leaves, arranged, trainLabels.labelData, numberOfClasses, regularization);
    }

    /** The base-class `train`: the input checks, then `Train` on every row. */
    method Fit(data: Matrix, trainLabels: Labels) returns (r: Result<()>)
      modifies this, tree
      requires Valid() && BuilderFor(regularization) == DepthFirst && Rectangular(data)
      ensures Valid()
      ensures r.Failure? <==> CheckClassifierInputFails(data, trainLabels)
      ensures r.Failure? ==> modelTrained == old(modelTrained) && tree.leafNodeToLabel == old(tree.leafNodeToLabel)
      ensures r.Success? ==> modelTrained
      ensures r.Success? ==>
                GrownFrom(tree.nodes, tree.leafNodeToLabel, tree.maxDepthOfThisTree, old(tree.leafNodeToLabel),
                          trainLabels.labelData, numberOfClasses, regularization, Range(0, |data.rows|))
    {
      var checked := CheckClassifierInput(data, trainLabels, numberOfFeatures, numberOfClasses);
      if checked.Failure? {
        return Failure(checked.error);
      }
      ghost var leaves, arranged := Train(data, trainLabels, checked.value);
      r := Success(());
    }

    /** The inputs the classifier `train` check rejects. */
    predicate CheckClassifierInputFails(data: Matrix, trainLabels: Labels)
      reads this
    {
      trainLabels.labelType != Classification || data.cols != numberOfFeatures
      || |data.rows| != |trainLabels.labelData|
      || (exists i :: 0 <= i < |trainLabels.labelData| && !(0.0 <= trainLabels.labelData[i] < numberOfClasses as real))
      || !Represented(trainLabels.labelData, numberOfClasses)
    }

    /** What `predictOne` returns for `x`: the winning class of the count
        vector of the reached leaf, or the tree's error. */
    function Label(x: seq<real>): (r: Result<real>)
      reads this, tree
      ensures r.Success? <==> tree.Prediction(x).Success?
      ensures r.Success? ==> r.value == Winner(tree.Prediction(x).value)
    {
      match tree.Prediction(x)
      case Failure(e) => Failure(e)
      case Success(counts) => Success(Winner(counts))
    }

    /** Looks up the count vector of the reached leaf and returns the
        smallest class with the largest count, a class of the model. */
    method PredictOne(x: seq<real>) returns (r: Result<real>)
      requires Valid() && |x| == numberOfFeatures
      ensures r == Label(x)
      ensures r.Success? && numberOfClasses > 0 ==> IsClassLabel(r.value, numberOfClasses)
    {
      var labelsCount := tree.PredictOne(x);
      if labelsCount.Failure? {
        return Failure(labelsCount.error);
      }
      ghost var leaf :| Reach(tree.nodes, x, tree.headNodeIndex) == Some(leaf)
                        && Lookup(tree.leafNodeToLabel, leaf) == Some(labelsCount.value);
      var winner := FirstMax(labelsCount.value);
      r := Success(winner as real);
    }

    /** The labels of the rows `ids` of `data`, in order, or the first
        error. */
    function Labels(data: Matrix, ids: seq<int>): (r: Result<seq<real>>)
      reads this, tree
      requires forall j :: 0 <= j < |ids| ==> 0 <= ids[j] < |data.rows|
      ensures r.Success? ==> |r.value| == |ids|
      ensures r.Success? ==> forall j :: 0 <= j < |ids| ==> Label(data.rows[ids[j]]) == Success(r.value[j])
    {
      if |ids| == 0 then Success([])
      else
        var m := |ids| - 1;
        match Labels(data, ids[..m])
        case Failure(e) => Failure(e)
        case Success(front) =>
          match Label(data.rows[ids[m]])
          case Failure(e) => Failure(e)
          case Success(v) => Success(front + [v])
    }

    /** `predict` with an index list: -1 everywhere, then the prediction at
        each listed row. */
    method PredictAt(data: Matrix, testIndices: seq<int>) returns (r: Result<Definitions.Labels>)
      requires Valid() && Rectangular(data) && data.cols == numberOfFeatures
      requires forall j :: 0 <= j < |testIndices| ==> 0 <= testIndices[j] < |data.rows|
      ensures r.Failure? <==> Labels(data, testIndices).Failure?
      ensures r.Success? ==> r.value.labelType == Classification
      ensures r.Success? ==>
                r.value.labelData == Scattered(Unpredicted(|data.rows|), testIndices, Labels(data, testIndices).value)
    {
      ghost var base := Unpredicted(|data.rows|);
      var labelData := Unpredicted(|data.rows|);
      ghost var values: seq<real> := [];
      for j := 0 to |testIndices|
        invariant Labels(data, testIndices[..j]) == Success(values)
        invariant labelData == Scattered(base, testIndices[..j], values)
      {
        var p := PredictOne(data.rows[testIndices[j]]);
        LabelsStep(data, testIndices, j, values);
        if p.Failure? {
          LabelsPrefixFailure(data, testIndices, j + 1);
          return Failure(p.error);
        }
        ScatteredStep(base, testIndices, values, j, p.value);
        labelData := labelData[testIndices[j] := p.value];
        values := values + [p.value];
      }
      assert testIndices[..|testIndices|] == testIndices;
      r := Success(Definitions.Labels(Classification, labelData));
    }

    /** One more index: the labels of the longer prefix extend those of the
        shorter one, or fail with the new row. */
    lemma LabelsStep(data: Matrix, ids: seq<int>, j: int, values: seq<real>)
      requires forall i :: 0 <= i < |ids| ==> 0 <= ids[i] < |data.rows|
      requires 0 <= j < |ids| && Labels(data, ids[..j]) == Success(values)
      ensures Label(data.rows[ids[j]]).Failure? ==> Labels(data, ids[..j + 1]).Failure?
      ensures Label(data.rows[ids[j]]).Success? ==>
                Labels(data, ids[..j + 1]) == Success(values + [Label(data.rows[ids[j]]).value])
    {
      assert ids[..j + 1][..j] == ids[..j];
    }

    /** A failure on a prefix of the index list is a failure of the whole
        list. */
    lemma {:induction false} LabelsPrefixFailure(data: Matrix, ids: seq<int>, n: int)
      requires forall j :: 0 <= j < |ids| ==> 0 <= ids[j] < |data.rows|
      requires 0 <= n <= |ids| && Labels(data, ids[..n]).Failure?
      ensures Labels(data, ids).Failure?
      decreases |ids| - n
    {
      if n < |ids| {
        assert ids[..n + 1][..n] == ids[..n];
        LabelsPrefixFailure(data, ids, n + 1);
      } else {
        assert ids[..n] == ids;
      }
    }

    /** The base-class `predict`: an error when the model is untrained or
        the column count differs, otherwise `PredictAt` on every row. */
    method Predict(data: Matrix) returns (r: Result<Definitions.Labels>)
      requires Valid() && Rectangular(data)
      ensures !modelTrained || data.cols != numberOfFeatures ==> r.Failure?
      ensures modelTrained && data.cols == numberOfFeatures ==>
                (r.Failure? <==> Labels(data, Range(0, |data.rows|)).Failure?)
      ensures r.Success? ==> r.value.labelData == Labels(data, Range(0, |data.rows|)).value
    {
      if !modelTrained {
        return Failure("Model has not been trained yet");
      }
      if data.cols != numberOfFeatures {
        return Failure("Invalid input data: wrong number of features");
      }
      var all := Range(0, |data.rows|);
      r := PredictAt(data, all);
      if r.Success? {
        ScatteredAll(|data.rows|, Labels(data, all).value);
      }
    }

    /** `_clearModel` followed by the base-class `clear`: the tree is reset
        and the model is untrained. */
    method Clear()
      modifies this, tree
      requires Valid()
      ensures Valid() && !modelTrained && numberOfFeaturesToSplit == old(numberOfFeaturesToSplit)
      ensures tree.nodes == [] && tree.leafNodeToLabel == [] && tree.headNodeIndex == -1
    {
      tree.Reset();
      modelTrained := false;
    }
  }

  /** Writing one more value extends the scatter by one update. */
  lemma ScatteredStep(base: seq<real>, ids: seq<int>, values: seq<real>, j: int, v: real)
    requires forall i :: 0 <= i < |ids| ==> 0 <= ids[i] < |base|
    requires 0 <= j < |ids| && |values| == j
    ensures Scattered(base, ids[..j + 1], values + [v]) == Scattered(base, ids[..j], values)[ids[j] := v]
  {
    assert ids[..j + 1][..j] == ids[..j];
    assert (values + [v])[..j] == values;
  }

  /** Writing a value at every position `0..n-1` in order replaces the whole
      vector. */
  lemma ScatteredAll(n: nat, values: seq<real>)
    requires |values| == n
    ensures Scattered(Unpredicted(n), Range(0, n), values) == values
  {
    var s := Scattered(Unpredicted(n), Range(0, n), values);
    forall i | 0 <= i < n
      ensures s[i] == values[i]
    {
      assert Range(0, n)[i] == i;
      ScatteredAt(Unpredicted(n), Range(0, n), values, i);
    }
  }

  /** Checks the parameters, then builds a classifier; a failed check is the
      constructor's exception. */
  method NewTreeClassifier(numberOfFeatures: nat, numberOfClasses: nat, regularization: Regularization, rule: Rule)
    returns (r: Result<TreeClassifier>)
    ensures r.Failure? <==> Validate(regularization).Failure?
    ensures r.Success? ==> fresh(r.value) && fresh(r.value.tree) && r.value.Valid() && !r.value.modelTrained
    ensures r.Success? ==> r.value.numberOfFeatures == numberOfFeatures && r.value.numberOfClasses == numberOfClasses
    ensures r.Success? ==> r.value.numberOfFeaturesToSplit == numberOfFeatures && r.value.regularization == regularization
  {
    var checked := Validate(regularization);
    if checked.Failure? {
      return Failure(checked.error);
    }
    var model := new TreeClassifier(numberOfFeatures, numberOfClasses, regularization, rule);
    r := Success(model);
  }

  class TreeRegressor {
    const numberOfFeatures: nat
    const regularization: Regularization
    var numberOfFeaturesToSplit: int
    const tree: Tree<real>
    var modelTrained: bool

    ghost predicate Valid()
      reads this, tree
    {
      Validate(regularization).Success? && tree.Valid() && tree.numberOfFeatures == numberOfFeatures
    }

    constructor(numberOfFeatures: nat, regularization: Regularization)
      requires Validate(regularization).Success?
      ensures this.numberOfFeatures == numberOfFeatures && this.regularization == regularization
      ensures numberOfFeaturesToSplit == numberOfFeatures && !modelTrained
      ensures fresh(tree) && tree.nodes == [] && tree.leafNodeToLabel == []
      ensures Valid()
    {
      this.numberOfFeatures := numberOfFeatures;
      this.regularization := regularization;
      numberOfFeaturesToSplit := numberOfFeatures;
      tree := new Tree(numberOfFeatures, AnyValue());
      modelTrained := false;
    }

    /** `predictOne`: the value stored for the reached leaf, unchanged. */
    method PredictOne(x: seq<real>) returns (r: Result<real>)
      requires Valid() && |x| == numberOfFeatures
      ensures r == tree.Prediction(x)
      ensures r.Success? ==> exists leaf :: Reach(tree.nodes, x, tree.headNodeIndex) == Some(leaf)
                                           && Lookup(tree.leafNodeToLabel, leaf) == Some(r.value)
    {
      r := tree.PredictOne(x);
    }

    /** The predictions of the rows `ids` of `data`, in order, or the first
        error. */
    function Values(data: Matrix, ids: seq<int>): (r: Result<seq<real>>)
      reads this, tree
      requires forall j :: 0 <= j < |ids| ==> 0 <= ids[j] < |data.rows|
      ensures r.Success? ==> |r.value| == |ids|
      ensures r.Success? ==> forall j :: 0 <= j < |ids| ==> tree.Prediction(data.rows[ids[j]]) == Success(r.value[j])
    {
      if |ids| == 0 then Success([])
      else
        var m := |ids| - 1;
        match Values(data, ids[..m])
        case Failure(e) => Failure(e)
        case Success(front) =>
          match tree.Prediction(data.rows[ids[m]])
          case Failure(e) => Failure(e)
          case Success(v) => Success(front + [v])
    }

    lemma ValuesStep(data: Matrix, ids: seq<int>, j: int, values: seq<real>)
      requires forall i :: 0 <= i < |ids| ==> 0 <= ids[i] < |data.rows|
      requires 0 <= j < |ids| && Values(data, ids[..j]) == Success(values)
      ensures tree.Prediction(data.rows[ids[j]]).Failure? ==> Values(data, ids[..j + 1]).Failure?
      ensures tree.Prediction(data.rows[ids[j]]).Success? ==>
                Values(data, ids[..j + 1]) == Success(values + [tree.Prediction(data.rows[ids[j]]).value])
    {
      assert ids[..j + 1][..j] == ids[..j];
    }

    lemma {:induction false} ValuesPrefixFailure(data: Matrix, ids: seq<int>, n: int)
      requires forall j :: 0 <= j < |ids| ==> 0 <= ids[j] < |data.rows|
      requires 0 <= n <= |ids| && Values(data, ids[..n]).Failure?
      ensures Values(data, ids).Failure?
      decreases |ids| - n
    {
      if n < |ids| {
        assert ids[..n + 1][..n] == ids[..n];
        ValuesPrefixFailure(data, ids, n + 1);
      } else {
        assert ids[..n] == ids;
      }
    }

    /** `predict` with an index list: -1 everywhere, then the prediction at
        each listed row. */
    method PredictAt(data: Matrix, testIndices: seq<int>) returns (r: Result<Definitions.Labels>)
      requires Valid() && Rectangular(data) && data.cols == numberOfFeatures
      requires forall j :: 0 <= j < |testIndices| ==> 0 <= testIndices[j] < |data.rows|
      ensures r.Failure? <==> Values(data, testIndices).Failure?
      ensures r.Success? ==> r.value.labelType == Regression
      ensures r.Success? ==>
                r.value.labelData == Scattered(Unpredicted(|data.rows|), testIndices, Values(data, testIndices).value)
    {
      ghost var base := Unpredicted(|data.rows|);
      var labelData := Unpredicted(|data.rows|);
      ghost var values: seq<real> := [];
      for j := 0 to |testIndices|
        invariant Values(data, testIndices[..j]) == Success(values)
        invariant labelData == Scattered(base, testIndices[..j], values)
      {
        var p := PredictOne(data.rows[testIndices[j]]);
        ValuesStep(data, testIndices, j, values);
        if p.Failure? {
          ValuesPrefixFailure(data, testIndices, j + 1);
          return Failure(p.error);
        }
        ScatteredStep(base, testIndices, values, j, p.value);
        labelData := labelData[testIndices[j] := p.value];
        values := values + [p.value];
      }
      assert testIndices[..|testIndices|] == testIndices;
      r := Success(Definitions.Labels(Regression, labelData));
    }

    /** The base-class `predict`: an error when the model is untrained or
        the column count differs, otherwise `PredictAt` on every row. */
    method Predict(data: Matrix) returns (r: Result<Definitions.Labels>)
      requires Valid() && Rectangular(data)
      ensures !modelTrained || data.cols != numberOfFeatures ==> r.Failure?
      ensures modelTrained && data.cols == numberOfFeatures ==>
                (r.Failure? <==> Values(data, Range(0, |data.rows|)).Failure?)
      ensures r.Success? ==> r.value.labelData == Values(data, Range(0, |data.rows|)).value
    {
      if !modelTrained {
        return Failure("Model has not been trained yet");
      }
      if data.cols != numberOfFeatures {
        return Failure("Invalid input data: wrong number of features");
      }
      var all := Range(0, |data.rows|);
      r := PredictAt(data, all);
      if r.Success? {
        ScatteredAll(|data.rows|, Values(data, all).value);
      }
    }

    method Clear()
      modifies this, tree
      requires Valid()
      ensures Valid() && !modelTrained && numberOfFeaturesToSplit == old(numberOfFeaturesToSplit)
      ensures tree.nodes == [] && tree.leafNodeToLabel == [] && tree.headNodeIndex == -1
    {
      tree.Reset();
      modelTrained := false;
    }
  }

  /** Checks the parameters, then builds a regressor. */
  method NewTreeRegressor(numberOfFeatures: nat, regularization: Regularization) returns (r: Result<TreeRegressor>)
    ensures r.Failure? <==> Validate(regularization).Failure?
    ensures r.Success? ==> fresh(r.value) && fresh(r.value.tree) && r.value.Valid() && !r.value.modelTrained
    ensures r.Success? ==> r.value.numberOfFeatures == numberOfFeatures && r.value.numberOfFeaturesToSplit == numberOfFeatures
  {
    var checked := Validate(regularization);
    if checked.Failure? {
      return Failure(checked.error);
    }
    var model := new TreeRegressor(numberOfFeatures, regularization);
    r := Success(model);
  }
}
