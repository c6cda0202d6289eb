/**
 * The ensembles of trees: the random forest, which sums the count vectors of
 * its trees; bagging over tree classifiers, which takes a majority vote; and
 * gradient boosting, which adds up the values of its regression trees. Each
 * tree or base model trains on its own bootstrap list (forest, bagging) or
 * on the expanded weight list (boosting).
 */
module Ensembles {
  import opened Outcome
  import opened Definitions
  import opened Counting
  import opened Samples
  import opened Impurity
  import opened Records
  import opened Trees
  import opened Building
  import opened Voting
  import opened BaseModels
  import opened TreeModels

  /** The largest `s` with `s * s <= n`: `static_cast<long>(sqrt(n))` for the
      feature counts the forest sees. */
  function FloorSqrt(n: nat): (s: nat)
    ensures s * s <= n < (s + 1) * (s + 1)
  {
    if n == 0 then 0
    else
      var r := FloorSqrt(n - 1);
      var s := r + 1;
      if s * s <= n then
        assert (s + 1) * (s + 1) == s * s + 2 * s + 1;
        s
      else r
  }

  /** A tree of a classification ensemble: valid, over `F` features, with
      leaves holding count vectors of `K` entries. */
  ghost predicate CountTree(t: Tree<seq<int>>, F: int, K: nat)
    reads t
  {
    t.Valid() && t.numberOfFeatures == F && (forall v: seq<int> :: t.admits(v) <==> |v| == K)
    && CountVectors(t, K)
  }

  /** The elementwise sum of the count vectors the trees reach for `x`,
      starting from `K` zeros, or the first tree's error. */
  function Summed(trees: seq<Tree<seq<int>>>, x: seq<real>, K: nat): (r: Result<seq<int>>)
    reads set t | t in trees
    requires forall t :: t in trees ==> CountVectors(t, K)
    ensures r.Success? ==> |r.value| == K
  {
    if |trees| == 0 then Success(Zeros(K))
    else
      var m := |trees| - 1;
      match Summed(trees[..m], x, K)
      case Failure(e) => Failure(e)
      case Success(acc) =>
        match trees[m].Prediction(x)
        case Failure(e) => Failure(e)
        case Success(counts) =>
          PayloadLength(trees[m], x, K);
          Success(Plus(acc, counts))
  }

  /** A reached leaf's payload has the length every payload has. */
  lemma PayloadLength(t: Tree<seq<int>>, x: seq<real>, K: nat)
    requires CountVectors(t, K) && t.Prediction(x).Success?
    ensures |t.Prediction(x).value| == K
  {
    var leaf :| Reach(t.nodes, x, t.headNodeIndex) == Some(leaf)
                && Lookup(t.leafNodeToLabel, leaf) == Some(t.Prediction(x).value);
    var j :| 0 <= j < |t.leafNodeToLabel| && t.leafNodeToLabel[j] == (leaf, t.Prediction(x).value);
  }

  /** A forest of one tree sums exactly that tree's count vector, so it
      predicts what a tree classifier with that tree predicts. */
  lemma SingleTreeForest(t: Tree<seq<int>>, x: seq<real>, K: nat)
    requires CountVectors(t, K) && t.Prediction(x).Success?
    ensures Summed([t], x, K) == Success(t.Prediction(x).value)
  {
    PayloadLength(t, x, K);
    assert [t][..0] == [];
    assert Plus(Zeros(K), t.Prediction(x).value) == t.Prediction(x).value;
  }

  /** `n` copies of `c` added up. */
  function Scaled(n: nat, c: seq<int>): (r: seq<int>)
    ensures |r| == |c| && forall k :: 0 <= k < |c| ==> r[k] == n * c[k]
  {
    seq(|c|, k requires 0 <= k < |c| => n * c[k])
  }

  /** When every tree reaches the same count vector `c`, the forest sums
      `|trees|` copies of it, and so picks the same class as each tree. */
  lemma {:induction false} AgreeingTrees(trees: seq<Tree<seq<int>>>, x: seq<real>, K: nat, c: seq<int>)
    requires forall t :: t in trees ==> CountVectors(t, K)
    requires forall t :: t in trees ==> t.Prediction(x) == Success(c)
    requires |c| == K
    ensures Summed(trees, x, K) == Success(Scaled(|trees|, c))
    ensures |trees| > 0 ==> FirstMax(Summed(trees, x, K).value) == FirstMax(c)
  {
    if |trees| > 0 {
      var m := |trees| - 1;
      assert forall t :: t in trees[..m] ==> t in trees;
      AgreeingTrees(trees[..m], x, K, c);
      assert trees[m] in trees;
      ScaledStep(m, c);
      ScaledFirstMax(|trees|, c);
    } else {
      assert Zeros(K) == Scaled(0, c);
    }
  }

  /** Scaling a count vector by a positive factor keeps its first largest
      entry. */
  lemma ScaledFirstMax(n: nat, c: seq<int>)
    requires n > 0
    ensures FirstMax(Scaled(n, c)) == FirstMax(c)
  {
    if |c| > 0 {
      var s := Scaled(n, c);
      var k := FirstMax(c);
      forall j | 0 <= j < |c|
        ensures s[j] <= s[k]
      {
        MultiplyMonotone(n, c[j], c[k]);
      }
      forall j | 0 <= j < k
        ensures s[j] < s[k]
      {
        MultiplyStrict(n, c[j], c[k]);
      }
      FirstMaxUnique(s, k);
    }
  }

  /** One more copy of `c` added to `m` copies makes `m + 1` copies. */
  lemma ScaledStep(m: nat, c: seq<int>)
    ensures Plus(Scaled(m, c), c) == Scaled(m + 1, c)
  {
    forall k | 0 <= k < |c|
      ensures Plus(Scaled(m, c), c)[k] == Scaled(m + 1, c)[k]
    {
      assert (m + 1) * c[k] == m * c[k] + c[k];
    }
  }

  lemma MultiplyMonotone(n: nat, a: int, b: int)
    requires a <= b
    ensures n * a <= n * b
  {
  }

  lemma MultiplyStrict(n: nat, a: int, b: int)
    requires a < b && n > 0
    ensures n * a < n * b
  {
  }

  class RandomForestClassifier {
    const numberOfFeatures: nat
    const numberOfClasses: nat
    const regularization: Regularization
    const numberOfFeaturesToSplit: int
    const rule: Rule
    var trees: seq<Tree<seq<int>>>
    var modelTrained: bool

    ghost predicate Valid()
      reads this, set t | t in trees
    {
      Validate(regularization).Success? && DistinctTrees(trees)
      && forall t :: t in trees ==> CountTree(t, numberOfFeatures, numberOfClasses)
    }

    /** The constructor once the parameters passed the check: exactly
        `numberOfTrees` empty trees. */
    constructor(numberOfFeatures: nat, numberOfClasses: nat, numberOfTrees: nat, regularization: Regularization,
                numberOfFeaturesToSplit: int, rule: Rule)
      requires Validate(regularization).Success?
      ensures this.numberOfFeatures == numberOfFeatures && this.numberOfClasses == numberOfClasses
      ensures this.regularization == regularization && this.numberOfFeaturesToSplit == numberOfFeaturesToSplit
      ensures this.rule == rule && !modelTrained
      ensures |trees| == numberOfTrees && forall t :: t in trees ==> fresh(t) && t.nodes == [] && t.leafNodeToLabel == []
      ensures Valid()
    {
      this.numberOfFeatures := numberOfFeatures;
      this.numberOfClasses := numberOfClasses;
      this.regularization := regularization;
      this.numberOfFeaturesToSplit := numberOfFeaturesToSplit;
      this.rule := rule;
      modelTrained := false;
      trees := [];
      new;
      for treeCount := 0 to numberOfTrees
        invariant |trees| == treeCount && !modelTrained
        invariant forall t :: t in trees ==> fresh(t) && t.nodes == [] && t.leafNodeToLabel == []
        invariant forall t :: t in trees ==> CountTree(t, numberOfFeatures, numberOfClasses)
        invariant DistinctTrees(trees)
      {
        var t := new Tree(numberOfFeatures, CountsOfLength(numberOfClasses));
        trees := trees + [t];
      }
    }

    /** `train` with sample weights: the weights are expanded into a
        training list (a fractional weight is an error, before any tree is
        touched), then every tree grows depth first on its own bootstrap
        list drawn from that training list. */
    method Train(data: Matrix, trainLabels: Labels, weights: seq<real>)
      returns (r: Result<()>, ghost samples: seq<seq<int>>, ghost grown: seq<GrownRecord>, ghost inputs: seq<GrowInput>)
      modifies this, set t | t in trees
      requires Valid() && BuilderFor(regularization) == DepthFirst
      requires Rectangular(data) && data.cols == numberOfFeatures
      requires |trainLabels.labelData| == |data.rows| && |weights| == |trainLabels.labelData|
      requires Labelled(Range(0, |data.rows|), trainLabels.labelData, numberOfClasses)
      ensures Valid() && trees == old(trees)
      ensures r.Failure? <==> exists i :: 0 <= i < |weights| && !Integral(weights[i])
      ensures r.Failure? ==> modelTrained == old(modelTrained)
      ensures r.Success? ==> modelTrained && |samples| == |trees|
      ensures r.Success? ==> forall i :: 0 <= i < |samples| ==>
                |samples[i]| == |Expanded(weights)| && forall j :: 0 <= j < |samples[i]| ==> samples[i][j] in Expanded(weights)
      ensures r.Success? ==> TreesGrown(trees, grown, inputs, samples, old(TreeTables(trees)), trainLabels.labelData,
                                        numberOfClasses, regularization)
    {
      samples, grown, inputs := [], [], [];
      var trainIndices := ExpandWeights(weights);
      if trainIndices.Failure? {
        return Failure(trainIndices.error), samples, grown, inputs;
      }
      var expanded := trainIndices.value;
      ExpandedSorted(weights);
      assert Labelled(expanded, trainLabels.labelData, numberOfClasses) by {
        forall j | 0 <= j < |expanded|
          ensures 0 <= expanded[j] < |trainLabels.labelData| && 0 <= ClassOf(trainLabels.labelData[expanded[j]]) < numberOfClasses
        {
          assert Range(0, |data.rows|)[expanded[j]] == expanded[j];
        }
      }
      samples, grown, inputs := GrowForest(trees, data, trainLabels.labelData, numberOfClasses, rule, regularization,
                                           numberOfFeaturesToSplit, numberOfFeatures, expanded);
      modelTrained := true;
      r := Success(());
    }

    /** Sums the count vectors the trees reach for `x` and returns the
        smallest class with the largest sum. */
    method PredictOne(x: seq<real>) returns (r: Result<real>)
      requires Valid() && |x| == numberOfFeatures
      ensures r.Failure? <==> Summed(trees, x, numberOfClasses).Failure?
      ensures r.Success? ==> r.value == FirstMax(Summed(trees, x, numberOfClasses).value) as real
    {
      var predictedLabelsCount := Zeros(numberOfClasses);
      for treeId := 0 to |trees|
        invariant forall t :: t in trees[..treeId] ==> CountVectors(t, numberOfClasses)
        invariant Summed(trees[..treeId], x, numberOfClasses) == Success(predictedLabelsCount)
      {
        assert trees[treeId] in trees;
        var labelsCount := trees[treeId].PredictOne(x);
        SummedStep(trees, x, numberOfClasses, treeId, predictedLabelsCount);
        if labelsCount.Failure? {
          SummedPrefixFailure(trees, x, numberOfClasses, treeId + 1);
          return Failure(labelsCount.error);
        }
        predictedLabelsCount := Plus(predictedLabelsCount, labelsCount.value);
      }
      assert trees[..|trees|] == trees;
      var winner := FirstMax(predictedLabelsCount);
      r := Success(winner as real);
    }

    /** `_clearModel` as written: the tree vector itself is emptied, so a
        later `train` grows no tree and `predictOne` then sums nothing. */
    method ClearAsWritten()
      modifies this
      requires Valid()
      ensures trees == [] && !modelTrained && Valid()
    {
      trees := [];
      modelTrained := false;
    }

    /** `_clearModel` resetting every tree instead: the forest keeps its
        trees, each one empty, and the model is untrained. */
    method Clear()
      modifies this, set t | t in trees
      requires Valid()
      ensures Valid() && trees == old(trees) && !modelTrained
      ensures forall t :: t in trees ==> t.nodes == [] && t.leafNodeToLabel == []
    {
      for treeId := 0 to |trees|
        invariant trees == old(trees) && Valid()
        invariant forall i :: 0 <= i < treeId ==> trees[i].nodes == [] && trees[i].leafNodeToLabel == []
      {
        trees[treeId].Reset();
      }
      modelTrained := false;
    }
  }

  /** Grows one tree of a forest on a bootstrap list: it stays a valid tree
      whose leaves hold count vectors of `K` entries, and `record` witnesses
      that it was grown on `sample`. */
  method GrowCountTree(data: Matrix, labels: seq<real>, K: nat, rule: Rule, p: Regularization,
                       numberOfFeaturesToSplit: int, F: nat, sample: seq<int>, tree: Tree<seq<int>>)
    returns (ghost record: GrownRecord)
    modifies tree
    requires Validate(p).Success? && CountTree(tree, F, K)
    requires Rectangular(data) && data.cols == F
    requires |labels| == |data.rows| && Labelled(sample, labels, K)
    ensures CountTree(tree, F, K)
    ensures record.0 == StateOf(tree)
    ensures GrownBy(record, GrowInput(old(tree.leafNodeToLabel), labels, K, p, sample))
  {
    ghost var table0 := tree.leafNodeToLabel;
    ghost var leaves, arranged := GrowTree(data.rows, labels, K, rule, p, numberOfFeaturesToSplit, F, sample, tree);
    GrownCountVectors(table0, tree, leaves, arranged, labels, K, p);
    record := (StateOf(tree), leaves, arranged);
  }

  /** The forest's training loop: tree `i` grows on its own bootstrap list
      `samples[i]`, drawn from `expanded`, from the leaf table it had; the
      records `grown` witness how (`AllGrownEach` reads them back as
      `GrownFrom`). */
  method GrowForest(trees: seq<Tree<seq<int>>>, data: Matrix, labels: seq<real>, K: nat, rule: Rule, p: Regularization,
                    numberOfFeaturesToSplit: int, F: nat, expanded: seq<int>)
    returns (ghost samples: seq<seq<int>>, ghost grown: seq<GrownRecord>, ghost inputs: seq<GrowInput>)
    modifies set t | t in trees
    requires DistinctTrees(trees) && Validate(p).Success? && forall t :: t in trees ==> CountTree(t, F, K)
    requires Rectangular(data) && data.cols == F && |labels| == |data.rows| && Labelled(expanded, labels, K)
    ensures forall t :: t in trees ==> CountTree(t, F, K)
    ensures |samples| == |trees|
    ensures forall i :: 0 <= i < |samples| ==>
              |samples[i]| == |expanded| && forall j :: 0 <= j < |samples[i]| ==> samples[i][j] in expanded
    ensures TreesGrown(trees, grown, inputs, samples, old(TreeTables(trees)), labels, K, p)
  {
    ghost var tables0 := TreeTables(trees);
    grown, inputs := GrowEach(trees, data, labels, K, rule, p, numberOfFeaturesToSplit, F, expanded, tables0);
    samples := TreesTrained(trees, F, K, grown, inputs, tables0, labels, p, expanded);
  }

  /** The leaf tables of `trees`, in order. */
  ghost function TreeTables(trees: seq<Tree<seq<int>>>): (tables: seq<seq<(int, seq<int>)>>)
    reads set t | t in trees
    ensures |tables| == |trees|
  {
    seq(|trees|, i requires 0 <= i < |trees| reads set t | t in trees => trees[i].leafNodeToLabel)
  }

  /** `trees` were grown as the records `grown` witness: tree `i` from the
      leaf table `tables0[i]`, the labels, `K` classes, parameters `p` and
      the bootstrap list `samples[i]`. */
  ghost predicate TreesGrown(trees: seq<Tree<seq<int>>>, grown: seq<GrownRecord>, inputs: seq<GrowInput>,
                             samples: seq<seq<int>>, tables0: seq<seq<(int, seq<int>)>>, labels: seq<real>, K: nat,
                             p: Regularization)
    reads set t | t in trees
  {
    AllGrown(grown, inputs) && |grown| == |trees| && |samples| == |trees| && |tables0| == |trees|
    && forall i :: 0 <= i < |trees| ==>
         grown[i].0 == StateOf(trees[i]) && inputs[i] == GrowInput(tables0[i], labels, K, p, samples[i])
  }

  /** Read back after the forest's training loop: every tree is a count
      tree, and tree `i` grew from its leaf table on the bootstrap list
      `samples[i]`. */
  lemma TreesTrained(trees: seq<Tree<seq<int>>>, F: nat, K: nat, grown: seq<GrownRecord>, inputs: seq<GrowInput>,
                     tables0: seq<seq<(int, seq<int>)>>, labels: seq<real>, p: Regularization, expanded: seq<int>)
    returns (samples: seq<seq<int>>)
    requires ForestLoop(trees, F, K, |trees|, grown, inputs, tables0, labels, p, expanded)
    ensures forall t :: t in trees ==> CountTree(t, F, K)
    ensures |samples| == |trees|
    ensures forall i :: 0 <= i < |samples| ==>
              |samples[i]| == |expanded| && forall j :: 0 <= j < |samples[i]| ==> samples[i][j] in expanded
    ensures TreesGrown(trees, grown, inputs, samples, tables0, labels, K, p)
  {
    samples := seq(|inputs|, i requires 0 <= i < |inputs| => inputs[i].trainIndices);
    BootstrapSamples(inputs, tables0, labels, K, p, expanded, samples);
    TreeSlotsCount(trees, F, K, grown, tables0);
  }

  /** Invariant of the forest's training loop after `n` trees: the slots
      of `TreeSlots`, the records witnessing how each grew, and the
      bootstrap inputs they grew from. */
  ghost predicate ForestLoop(trees: seq<Tree<seq<int>>>, F: nat, K: nat, n: int, grown: seq<GrownRecord>,
                             inputs: seq<GrowInput>, tables0: seq<seq<(int, seq<int>)>>, labels: seq<real>,
                             p: Regularization, expanded: seq<int>)
    reads set t | t in trees
  {
    TreeSlots(trees, F, K, n, grown, tables0) && AllGrown(grown, inputs)
    && BootstrapInputs(inputs, tables0, labels, K, p, expanded)
  }

  /** The loop of `GrowForest` over the trees, from their leaf tables
      `tables0`. */
  method GrowEach(trees: seq<Tree<seq<int>>>, data: Matrix, labels: seq<real>, K: nat, rule: Rule, p: Regularization,
                  numberOfFeaturesToSplit: int, F: nat, expanded: seq<int>, ghost tables0: seq<seq<(int, seq<int>)>>)
    returns (ghost grown: seq<GrownRecord>, ghost inputs: seq<GrowInput>)
    modifies set t | t in trees
    requires DistinctTrees(trees) && Validate(p).Success?
    requires Rectangular(data) && data.cols == F && |labels| == |data.rows| && Labelled(expanded, labels, K)
    requires ForestLoop(trees, F, K, 0, [], [], tables0, labels, p, expanded)
    ensures ForestLoop(trees, F, K, |trees|, grown, inputs, tables0, labels, p, expanded)
  {
    grown, inputs := [], [];
    for treeId := 0 to |trees|
      invariant ForestLoop(trees, F, K, treeId, grown, inputs, tables0, labels, p, expanded)
    {
      grown, inputs := GrowNext(trees, treeId, data, labels, K, rule, p, numberOfFeaturesToSplit, F, expanded,
                                grown, inputs, tables0);
    }
  }

  /** Read back after the forest's training loop: input `i` is the leaf
      table `tables0[i]` with the bootstrap list `samples[i]`. */
  lemma BootstrapSamples(inputs: seq<GrowInput>, tables0: seq<seq<(int, seq<int>)>>, labels: seq<real>, K: nat,
                         p: Regularization, expanded: seq<int>, samples: seq<seq<int>>)
    requires BootstrapInputs(inputs, tables0, labels, K, p, expanded)
    requires |samples| == |inputs| && forall i :: 0 <= i < |inputs| ==> samples[i] == inputs[i].trainIndices
    ensures forall i :: 0 <= i < |samples| ==>
              |samples[i]| == |expanded| && forall j :: 0 <= j < |samples[i]| ==> samples[i][j] in expanded
    ensures forall i :: 0 <= i < |inputs| ==> inputs[i] == GrowInput(tables0[i], labels, K, p, samples[i])
  {
  }

  /** One pass of the forest's training loop: tree `n` grows on a fresh
      bootstrap list drawn from `expanded`. */
  method GrowNext(trees: seq<Tree<seq<int>>>, n: nat, data: Matrix, labels: seq<real>, K: nat, rule: Rule, p: Regularization,
                  numberOfFeaturesToSplit: int, F: nat, expanded: seq<int>, ghost grown: seq<GrownRecord>,
                  ghost inputs: seq<GrowInput>, ghost tables0: seq<seq<(int, seq<int>)>>)
    returns (ghost grown': seq<GrownRecord>, ghost inputs': seq<GrowInput>)
    modifies trees[n]
    requires n < |trees| && DistinctTrees(trees) && Validate(p).Success?
    requires Rectangular(data) && data.cols == F && |labels| == |data.rows| && Labelled(expanded, labels, K)
    requires ForestLoop(trees, F, K, n, grown, inputs, tables0, labels, p, expanded)
    ensures ForestLoop(trees, F, K, n + 1, grown', inputs', tables0, labels, p, expanded)
  {
    var sample := Bootstrap(expanded);
    DrawnLabelled(expanded, sample, labels, K);
    ghost var input := GrowInput(tables0[n], labels, K, p, sample);
    ghost var record := GrowSlot(trees, n, data, labels, K, rule, p, numberOfFeaturesToSplit, F, sample, grown, tables0);
    AllGrownAppend(grown, inputs, record, input);
    BootstrapInputsAppend(inputs, sample, tables0, labels, K, p, expanded);
    grown', inputs' := grown + [record], inputs + [input];
  }

  /** Grows tree `n` of the forest's training loop on `sample`: the other
      trees keep their slots, and tree `n` is grown as `record` witnesses. */
  method GrowSlot(trees: seq<Tree<seq<int>>>, n: nat, data: Matrix, labels: seq<real>, K: nat, rule: Rule, p: Regularization,
                  numberOfFeaturesToSplit: int, F: nat, sample: seq<int>, ghost grown: seq<GrownRecord>,
                  ghost tables0: seq<seq<(int, seq<int>)>>)
    returns (ghost record: GrownRecord)
    modifies trees[n]
    requires n < |trees| && DistinctTrees(trees) && Validate(p).Success?
    requires Rectangular(data) && data.cols == F && |labels| == |data.rows| && Labelled(sample, labels, K)
    requires TreeSlots(trees, F, K, n, grown, tables0)
    ensures TreeSlots(trees, F, K, n + 1, grown + [record], tables0)
    ensures GrownBy(record, GrowInput(tables0[n], labels, K, p, sample))
  {
    var tree := trees[n];
    assert forall i :: 0 <= i < |trees| && i != n ==> trees[i] != tree;
    assert TreeSlot(tree, F, K, tables0[n], None);
    assert forall i :: 0 <= i < |trees| && i != n ==>
             TreeSlot(trees[i], F, K, tables0[i], if i < n then Some(grown[i].0) else None);
    record := GrowCountTree(data, labels, K, rule, p, numberOfFeaturesToSplit, F, sample, tree);
    assert forall i :: 0 <= i < |trees| && i != n ==>
             TreeSlot(trees[i], F, K, tables0[i], if i < n then Some(grown[i].0) else None);
    TreeSlotsNext(trees, F, K, n, grown, record, tables0);
  }

  /** The inputs the forest's trees so far grew from: tree `i` from its
      own leaf table `tables0[i]`, the labels, `K` classes and parameters
      `p`, and a bootstrap list of `|expanded|` indices drawn from
      `expanded`. */
  ghost predicate BootstrapInputs(inputs: seq<GrowInput>, tables0: seq<seq<(int, seq<int>)>>, labels: seq<real>, K: nat,
                                  p: Regularization, expanded: seq<int>)
  {
    |inputs| <= |tables0|
    && forall i :: 0 <= i < |inputs| ==>
         inputs[i] == GrowInput(tables0[i], labels, K, p, inputs[i].trainIndices)
         && |inputs[i].trainIndices| == |expanded|
         && forall j :: 0 <= j < |inputs[i].trainIndices| ==> inputs[i].trainIndices[j] in expanded
  }

  lemma BootstrapInputsAppend(inputs: seq<GrowInput>, sample: seq<int>, tables0: seq<seq<(int, seq<int>)>>,
                              labels: seq<real>, K: nat, p: Regularization, expanded: seq<int>)
    requires BootstrapInputs(inputs, tables0, labels, K, p, expanded) && |inputs| < |tables0|
    requires |sample| == |expanded| && forall j :: 0 <= j < |sample| ==> sample[j] in expanded
    ensures BootstrapInputs(inputs + [GrowInput(tables0[|inputs|], labels, K, p, sample)], tables0, labels, K, p, expanded)
  {
    assert forall i :: 0 <= i < |inputs| ==> (inputs + [GrowInput(tables0[|inputs|], labels, K, p, sample)])[i] == inputs[i];
  }

  /** No two entries of `trees` are the same tree. */
  ghost predicate DistinctTrees<T>(trees: seq<Tree<T>>)
  {
    forall i, j :: 0 <= i < j < |trees| ==> trees[i] != trees[j]
  }

  /** A forest tree in the training loop: a count tree; grown to `state`
      when there is one, and otherwise still with the leaf table `table0`. */
  ghost predicate TreeSlot(t: Tree<seq<int>>, F: nat, K: nat, table0: seq<(int, seq<int>)>, state: Option<TreeState>)
    reads t
  {
    CountTree(t, F, K)
    && match state
       case Some(st) => st == StateOf(t)
       case None => t.leafNodeToLabel == table0
  }

  /** Invariant of the forest's training loop after `n` trees: the first
      `n` were grown to the states of `grown`, the rest keep the leaf tables
      of `tables0`. */
  ghost predicate TreeSlots(trees: seq<Tree<seq<int>>>, F: nat, K: nat, n: int, grown: seq<GrownRecord>,
                            tables0: seq<seq<(int, seq<int>)>>)
    reads set t | t in trees
  {
    |grown| == n && n <= |trees| == |tables0|
    && forall i :: 0 <= i < |trees| ==> TreeSlot(trees[i], F, K, tables0[i], if i < n then Some(grown[i].0) else None)
  }

  /** The other trees in their slots and tree `n` grown to `record`
      give the loop invariant after `n + 1` trees. */
  lemma TreeSlotsNext(trees: seq<Tree<seq<int>>>, F: nat, K: nat, n: nat, grown: seq<GrownRecord>, record: GrownRecord,
                      tables0: seq<seq<(int, seq<int>)>>)
    requires n < |trees| == |tables0| && |grown| == n
    requires forall i :: 0 <= i < |trees| && i != n ==>
               TreeSlot(trees[i], F, K, tables0[i], if i < n then Some(grown[i].0) else None)
    requires TreeSlot(trees[n], F, K, tables0[n], Some(record.0))
    ensures TreeSlots(trees, F, K, n + 1, grown + [record], tables0)
  {
    forall i | 0 <= i < |trees|
      ensures TreeSlot(trees[i], F, K, tables0[i], if i < n + 1 then Some((grown + [record])[i].0) else None)
    {
      if i != n {
        assert TreeSlot(trees[i], F, K, tables0[i], if i < n then Some(grown[i].0) else None);
      }
    }
  }

  /** After the loop every tree is a count tree grown to its record. */
  lemma TreeSlotsCount(trees: seq<Tree<seq<int>>>, F: nat, K: nat, grown: seq<GrownRecord>,
                       tables0: seq<seq<(int, seq<int>)>>)
    requires TreeSlots(trees, F, K, |trees|, grown, tables0)
    ensures forall t :: t in trees ==> CountTree(t, F, K)
    ensures forall i :: 0 <= i < |trees| ==> grown[i].0 == StateOf(trees[i])
  {
    forall i | 0 <= i < |trees|
      ensures CountTree(trees[i], F, K) && grown[i].0 == StateOf(trees[i])
    {
      assert TreeSlot(trees[i], F, K, tables0[i], Some(grown[i].0));
    }
  }

  /** One more tree: the sum over the longer prefix adds that tree's
      count vector, or fails with it. */
  lemma SummedStep(trees: seq<Tree<seq<int>>>, x: seq<real>, K: nat, n: int, acc: seq<int>)
    requires forall t :: t in trees ==> CountVectors(t, K)
    requires 0 <= n < |trees| && Summed(trees[..n], x, K) == Success(acc)
    ensures trees[n].Prediction(x).Failure? ==> Summed(trees[..n + 1], x, K).Failure?
    ensures trees[n].Prediction(x).Success? ==>
              |trees[n].Prediction(x).value| == K &&
              Summed(trees[..n + 1], x, K) == Success(Plus(acc, trees[n].Prediction(x).value))
  {
    assert trees[..n + 1][..n] == trees[..n];
    assert forall t :: t in trees[..n + 1] ==> t in trees;
    assert trees[n] in trees;
    if trees[n].Prediction(x).Success? {
      PayloadLength(trees[n], x, K);
    }
  }

  /** A failure of the sum over a prefix of the trees is a failure of the
      sum over all of them. */
  lemma {:induction false} SummedPrefixFailure(trees: seq<Tree<seq<int>>>, x: seq<real>, K: nat, n: int)
    requires forall t :: t in trees ==> CountVectors(t, K)
    requires 0 <= n <= |trees| && Summed(trees[..n], x, K).Failure?
    ensures Summed(trees, x, K).Failure?
    decreases |trees| - n
  {
    if n < |trees| {
      assert trees[..n + 1][..n] == trees[..n];
      assert forall t :: t in trees[..n + 1] ==> t in trees;
      SummedPrefixFailure(trees, x, K, n + 1);
    } else {
      assert trees[..n] == trees;
    }
  }

  /** A forest whose tree vector was emptied predicts class 0 for every
      instance: the sum over no trees is all zeros. */
  lemma EmptiedForestPredictsZero(x: seq<real>, K: nat)
    ensures Summed([], x, K) == Success(Zeros(K))
    ensures FirstMax(Zeros(K)) == 0
  {
    if K > 0 {
      FirstMaxUnique(Zeros(K), 0);
    }
  }

  /** Checks the parameters, then builds a forest. */
  method NewRandomForest(numberOfFeatures: nat, numberOfClasses: nat, numberOfTrees: nat, regularization: Regularization,
                         numberOfFeaturesToSplit: int, rule: Rule) returns (r: Result<RandomForestClassifier>)
    ensures r.Failure? <==> Validate(regularization).Failure?
    ensures r.Success? ==> fresh(r.value) && r.value.Valid() && |r.value.trees| == numberOfTrees && !r.value.modelTrained
    ensures r.Success? ==> r.value.regularization == regularization && r.value.numberOfFeaturesToSplit == numberOfFeaturesToSplit
  {
    var checked := Validate(regularization);
    if checked.Failure? {
      return Failure(checked.error);
    }
    var forest := new RandomForestClassifier(numberOfFeatures, numberOfClasses, numberOfTrees, regularization,
                                             numberOfFeaturesToSplit, rule);
    r := Success(forest);
  }

  /** The shorter constructor: no leaf budget. */
  method NewRandomForestUnbudgeted(numberOfFeatures: nat, numberOfClasses: nat, numberOfTrees: nat,
                                   minSamplesInALeaf: int, minSamplesInANode: int, maxDepth: int,
                                   numberOfFeaturesToSplit: int, rule: Rule) returns (r: Result<RandomForestClassifier>)
    ensures r.Failure? <==> !(minSamplesInALeaf >= 1 && minSamplesInANode >= 1 && maxDepth >= 1)
    ensures r.Success? ==> r.value.regularization.maxNumberOfLeafNodes == -1 && BuilderFor(r.value.regularization) == DepthFirst
    ensures r.Success? ==> fresh(r.value) && r.value.Valid() && |r.value.trees| == numberOfTrees
  {
    r := NewRandomForest(numberOfFeatures, numberOfClasses, numberOfTrees,
                         Regularization(minSamplesInALeaf, minSamplesInANode, maxDepth, -1),
                         numberOfFeaturesToSplit, rule);
  }

  /** The three-argument constructor: the default parameters and
      floor(sqrt(numberOfFeatures)) candidate features per split; it never
      fails. */
  method NewDefaultRandomForest(numberOfFeatures: nat, numberOfClasses: nat, numberOfTrees: nat, rule: Rule)
    returns (forest: RandomForestClassifier)
    ensures fresh(forest) && forest.Valid() && |forest.trees| == numberOfTrees
    ensures forest.regularization == DefaultRegularization()
    ensures forest.numberOfFeaturesToSplit * forest.numberOfFeaturesToSplit <= numberOfFeatures
              < (forest.numberOfFeaturesToSplit + 1) * (forest.numberOfFeaturesToSplit + 1)
  {
    forest := new RandomForestClassifier(numberOfFeatures, numberOfClasses, numberOfTrees, DefaultRegularization(),
                                         FloorSqrt(numberOfFeatures), rule);
  }

  // Bagging

  /** A base model of a bagging ensemble: a valid tree classifier of the
      ensemble's shape that builds depth first. */
  ghost predicate BaseModel(m: TreeClassifier, F: nat, K: nat)
    reads m, m.tree
  {
    m.Valid() && m.numberOfFeatures == F && m.numberOfClasses == K
    && BuilderFor(m.regularization) == DepthFirst
  }

  /** Trains one base model on its bootstrap list: it stays a base model of
      the same shape, and `record` witnesses that its tree was grown on
      `sample`. */
  method TrainBaseModel(m: TreeClassifier, data: Matrix, trainLabels: Labels, sample: seq<int>, F: nat, K: nat)
    returns (ghost record: GrownRecord)
    modifies m, m.tree
    requires BaseModel(m, F, K) && Rectangular(data) && data.cols == F
    requires |trainLabels.labelData| == |data.rows| && Labelled(sample, trainLabels.labelData, K)
    ensures BaseModel(m, F, K) && m.modelTrained
    ensures record.0 == StateOf(m.tree)
    ensures GrownBy(record, GrowInput(old(m.tree.leafNodeToLabel), trainLabels.labelData, K, m.regularization, sample))
  {
    ghost var leaves, arranged := m.Train(data, trainLabels, sample);
    record := (StateOf(m.tree), leaves, arranged);
  }

  /** No two entries of `models` are the same object or share a tree. */
  ghost predicate DistinctModels(models: seq<TreeClassifier>)
  {
    forall i, j :: 0 <= i < j < |models| ==> models[i] != models[j] && models[i].tree != models[j].tree
  }

  /** A base model in a training loop: a base model of the ensemble's
      shape; trained, with its tree grown to `state`, when there is one,
      and otherwise still with the leaf table `table0`. */
  ghost predicate ModelSlot(m: TreeClassifier, F: nat, K: nat, table0: seq<(int, seq<int>)>, state: Option<TreeState>)
    reads m, m.tree
  {
    BaseModel(m, F, K)
    && match state
       case Some(st) => m.modelTrained && st == StateOf(m.tree)
       case None => m.tree.leafNodeToLabel == table0
  }

  /** Invariant of a loop training base models after `n` of them: the
      first `n` were trained to the states of `grown`, the rest keep the
      leaf tables of `tables0`. */
  ghost predicate ModelSlots(models: seq<TreeClassifier>, F: nat, K: nat, n: int, grown: seq<GrownRecord>,
                             tables0: seq<seq<(int, seq<int>)>>)
    reads set m | m in models, set m | m in models :: m.tree
  {
    |grown| == n && n <= |models| == |tables0|
    && forall i :: 0 <= i < |models| ==>
         ModelSlot(models[i], F, K, tables0[i], if i < n then Some(grown[i].0) else None)
  }

  /** The other models in their slots and model `n` trained to `record`
      give the loop invariant after `n + 1` models. */
  lemma ModelSlotsNext(models: seq<TreeClassifier>, F: nat, K: nat, n: nat, grown: seq<GrownRecord>, record: GrownRecord,
                       tables0: seq<seq<(int, seq<int>)>>)
    requires n < |models| == |tables0| && |grown| == n
    requires forall i :: 0 <= i < |models| && i != n ==>
               ModelSlot(models[i], F, K, tables0[i], if i < n then Some(grown[i].0) else None)
    requires ModelSlot(models[n], F, K, tables0[n], Some(record.0))
    ensures ModelSlots(models, F, K, n + 1, grown + [record], tables0)
  {
    forall i | 0 <= i < |models|
      ensures ModelSlot(models[i], F, K, tables0[i], if i < n + 1 then Some((grown + [record])[i].0) else None)
    {
      if i != n {
        assert ModelSlot(models[i], F, K, tables0[i], if i < n then Some(grown[i].0) else None);
      }
    }
  }

  /** Before the loop every model is a base model with its leaf table. */
  lemma ModelSlotsStart(models: seq<TreeClassifier>, F: nat, K: nat)
    requires forall m :: m in models ==> BaseModel(m, F, K)
    ensures ModelSlots(models, F, K, 0, [], ModelTables(models))
  {
    forall i | 0 <= i < |models|
      ensures ModelSlot(models[i], F, K, ModelTables(models)[i], None)
    {
      assert models[i] in models;
    }
  }

  /** After the loop every model is a trained base model grown to its
      record. */
  lemma ModelSlotsTrained(models: seq<TreeClassifier>, F: nat, K: nat, grown: seq<GrownRecord>,
                          tables0: seq<seq<(int, seq<int>)>>)
    requires ModelSlots(models, F, K, |models|, grown, tables0)
    ensures forall i :: 0 <= i < |models| ==>
              BaseModel(models[i], F, K) && models[i].modelTrained && grown[i].0 == StateOf(models[i].tree)
    ensures forall m :: m in models ==> BaseModel(m, F, K) && m.modelTrained
  {
    forall i | 0 <= i < |models|
      ensures BaseModel(models[i], F, K) && models[i].modelTrained && grown[i].0 == StateOf(models[i].tree)
    {
      assert ModelSlot(models[i], F, K, tables0[i], Some(grown[i].0));
    }
  }

  /** Invariant of bagging's training loop after `n` base models: the
      slots of `ModelSlots`, the records witnessing how each grew, and the
      bootstrap inputs they grew from. */
  ghost predicate BagLoop(models: seq<TreeClassifier>, F: nat, K: nat, n: int, grown: seq<GrownRecord>,
                          inputs: seq<GrowInput>, tables0: seq<seq<(int, seq<int>)>>, labels: seq<real>,
                          p: Regularization, trainIndices: seq<int>)
    reads set m | m in models, set m | m in models :: m.tree
  {
    ModelSlots(models, F, K, n, grown, tables0) && AllGrown(grown, inputs)
    && BootstrapInputs(inputs, tables0, labels, K, p, trainIndices)
  }

  /** One pass of bagging's training loop: base model `n` trains on a fresh
      bootstrap list drawn from `trainIndices`. */
  method BagNext(models: seq<TreeClassifier>, n: nat, data: Matrix, trainLabels: Labels, F: nat, K: nat, ghost p: Regularization,
                 trainIndices: seq<int>, ghost grown: seq<GrownRecord>, ghost inputs: seq<GrowInput>,
                 ghost tables0: seq<seq<(int, seq<int>)>>)
    returns (ghost grown': seq<GrownRecord>, ghost inputs': seq<GrowInput>)
    modifies models[n], models[n].tree
    requires n < |models| && DistinctModels(models) && models[n].regularization == p
    requires Rectangular(data) && data.cols == F
    requires |trainLabels.labelData| == |data.rows| && Labelled(trainIndices, trainLabels.labelData, K)
    requires BagLoop(models, F, K, n, grown, inputs, tables0, trainLabels.labelData, p, trainIndices)
    ensures BagLoop(models, F, K, n + 1, grown', inputs', tables0, trainLabels.labelData, p, trainIndices)
  {
    var sample := Bootstrap(trainIndices);
    DrawnLabelled(trainIndices, sample, trainLabels.labelData, K);
    ghost var input := GrowInput(tables0[n], trainLabels.labelData, K, p, sample);
    ghost var record := TrainSlot(models, n, data, trainLabels, sample, F, K, grown, tables0);
    AllGrownAppend(grown, inputs, record, input);
    BootstrapInputsAppend(inputs, sample, tables0, trainLabels.labelData, K, p, trainIndices);
    grown', inputs' := grown + [record], inputs + [input];
  }

  /** Trains base model `n` of bagging's training loop on `sample`: the
      other models keep their slots, and model `n` is trained as `record`
      witnesses. */
  method TrainSlot(models: seq<TreeClassifier>, n: nat, data: Matrix, trainLabels: Labels, sample: seq<int>, F: nat, K: nat,
                   ghost grown: seq<GrownRecord>, ghost tables0: seq<seq<(int, seq<int>)>>)
    returns (ghost record: GrownRecord)
    modifies models[n], models[n].tree
    requires n < |models| && DistinctModels(models)
    requires Rectangular(data) && data.cols == F
    requires |trainLabels.labelData| == |data.rows| && Labelled(sample, trainLabels.labelData, K)
    requires ModelSlots(models, F, K, n, grown, tables0)
    ensures ModelSlots(models, F, K, n + 1, grown + [record], tables0)
    ensures GrownBy(record, GrowInput(tables0[n], trainLabels.labelData, K, models[n].regularization, sample))
  {
    var m := models[n];
    assert forall i :: 0 <= i < |models| && i != n ==> models[i] != m && models[i].tree != m.tree;
    assert ModelSlot(m, F, K, tables0[n], None);
    assert forall i :: 0 <= i < |models| && i != n ==>
             ModelSlot(models[i], F, K, tables0[i], if i < n then Some(grown[i].0) else None);
    record := TrainBaseModel(m, data, trainLabels, sample, F, K);
    assert forall i :: 0 <= i < |models| && i != n ==>
             ModelSlot(models[i], F, K, tables0[i], if i < n then Some(grown[i].0) else None);
    ModelSlotsNext(models, F, K, n, grown, record, tables0);
  }

  /** The loop of bagging's `train` over the base models, from their leaf
      tables `tables0`. */
  method BagEach(models: seq<TreeClassifier>, data: Matrix, trainLabels: Labels, F: nat, K: nat, ghost p: Regularization,
                 trainIndices: seq<int>, ghost tables0: seq<seq<(int, seq<int>)>>)
    returns (ghost grown: seq<GrownRecord>, ghost inputs: seq<GrowInput>)
    modifies set m | m in models, set m | m in models :: m.tree
    requires DistinctModels(models) && forall m :: m in models ==> m.regularization == p
    requires Rectangular(data) && data.cols == F
    requires |trainLabels.labelData| == |data.rows| && Labelled(trainIndices, trainLabels.labelData, K)
    requires ModelSlots(models, F, K, 0, [], tables0)
    ensures BagLoop(models, F, K, |models|, grown, inputs, tables0, trainLabels.labelData, p, trainIndices)
  {
    grown, inputs := [], [];
    for modelId := 0 to |models|
      invariant BagLoop(models, F, K, modelId, grown, inputs, tables0, trainLabels.labelData, p, trainIndices)
    {
      grown, inputs := BagNext(models, modelId, data, trainLabels, F, K, p, trainIndices, grown, inputs, tables0);
    }
  }

  /** The leaf tables of the trees of `models`, in order. */
  ghost function ModelTables(models: seq<TreeClassifier>): (tables: seq<seq<(int, seq<int>)>>)
    reads set m | m in models :: m.tree
    ensures |tables| == |models|
  {
    seq(|models|, i requires 0 <= i < |models| reads set m | m in models :: m.tree => models[i].tree.leafNodeToLabel)
  }

  /** The trees of `models` were grown as the records `grown` witness: the
      tree of model `i` from the leaf table `tables0[i]`, the labels, `K`
      classes, parameters `p` and the bootstrap list `samples[i]`. */
  ghost predicate ModelsGrown(models: seq<TreeClassifier>, grown: seq<GrownRecord>, inputs: seq<GrowInput>,
                              samples: seq<seq<int>>, tables0: seq<seq<(int, seq<int>)>>, labels: seq<real>, K: nat,
                              p: Regularization)
    reads set m | m in models :: m.tree
  {
    AllGrown(grown, inputs) && |grown| == |models| && |samples| == |models| && |tables0| == |models|
    && forall i :: 0 <= i < |models| ==>
         grown[i].0 == StateOf(models[i].tree) && inputs[i] == GrowInput(tables0[i], labels, K, p, samples[i])
  }

  /** Bagging's training loop with its bookkeeping: every base model
      trains on its own bootstrap list drawn from `trainIndices`, from the
      leaf table it had. */
  method BagForest(models: seq<TreeClassifier>, data: Matrix, trainLabels: Labels, F: nat, K: nat, ghost p: Regularization,
                   trainIndices: seq<int>)
    returns (ghost samples: seq<seq<int>>, ghost grown: seq<GrownRecord>, ghost inputs: seq<GrowInput>)
    modifies set m | m in models, set m | m in models :: m.tree
    requires DistinctModels(models) && forall m :: m in models ==> BaseModel(m, F, K) && m.regularization == p
    requires Rectangular(data) && data.cols == F
    requires |trainLabels.labelData| == |data.rows| && Labelled(trainIndices, trainLabels.labelData, K)
    ensures forall m :: m in models ==> BaseModel(m, F, K) && m.modelTrained
    ensures |samples| == |models|
    ensures forall i :: 0 <= i < |samples| ==>
              |samples[i]| == |trainIndices| && forall j :: 0 <= j < |samples[i]| ==> samples[i][j] in trainIndices
    ensures ModelsGrown(models, grown, inputs, samples, old(ModelTables(models)), trainLabels.labelData, K, p)
  {
    ghost var tables0 := ModelTables(models);
    ModelSlotsStart(models, F, K);
    grown, inputs := BagEach(models, data, trainLabels, F, K, p, trainIndices, tables0);
    samples := ModelsTrained(models, F, K, grown, inputs, tables0, trainLabels.labelData, p, trainIndices);
  }

  /** Read back after bagging's training loop: every model is a trained
      base model, and model `i` grew from its leaf table on the bootstrap
      list `samples[i]`. */
  lemma ModelsTrained(models: seq<TreeClassifier>, F: nat, K: nat, grown: seq<GrownRecord>, inputs: seq<GrowInput>,
                      tables0: seq<seq<(int, seq<int>)>>, labels: seq<real>, p: Regularization, trainIndices: seq<int>)
    returns (samples: seq<seq<int>>)
    requires BagLoop(models, F, K, |models|, grown, inputs, tables0, labels, p, trainIndices)
    ensures forall m :: m in models ==> BaseModel(m, F, K) && m.modelTrained
    ensures |samples| == |models|
    ensures forall i :: 0 <= i < |samples| ==>
              |samples[i]| == |trainIndices| && forall j :: 0 <= j < |samples[i]| ==> samples[i][j] in trainIndices
    ensures ModelsGrown(models, grown, inputs, samples, tables0, labels, K, p)
  {
    samples := seq(|inputs|, i requires 0 <= i < |inputs| => inputs[i].trainIndices);
    BootstrapSamples(inputs, tables0, labels, K, p, trainIndices, samples);
    ModelSlotsTrained(models, F, K, grown, tables0);
  }

  class BaggingClassifier {
    const numberOfFeatures: nat
    const numberOfClasses: nat
    /** The parameters every base model was built with. */
    ghost const regularization: Regularization
    var models: seq<TreeClassifier>
    var modelTrained: bool

    /** Distinct base models of the ensemble's shape, all with the same
        parameters. */
    ghost predicate Valid()
      reads this, set m | m in models, set m | m in models :: m.tree
    {
      DistinctModels(models)
      && forall m :: m in models ==> BaseModel(m, numberOfFeatures, numberOfClasses) && m.regularization == regularization
    }

    /** `numberOfBaseModels` fresh tree classifiers, all with the same
        parameters; the parameters only pass the tree classifier's check
        when there is a base model to build. */
    constructor(numberOfFeatures: nat, numberOfClasses: nat, numberOfBaseModels: nat, regularization: Regularization, rule: Rule)
      requires numberOfBaseModels == 0 || Validate(regularization).Success?
      requires BuilderFor(regularization) == DepthFirst
      ensures this.numberOfFeatures == numberOfFeatures && this.numberOfClasses == numberOfClasses
      ensures |models| == numberOfBaseModels && !modelTrained && Valid()
      ensures forall m :: m in models ==> fresh(m) && m.regularization == regularization && !m.modelTrained
    {
      this.numberOfFeatures := numberOfFeatures;
      this.numberOfClasses := numberOfClasses;
      this.regularization := regularization;
      models := [];
      modelTrained := false;
      new;
      for modelCount := 0 to numberOfBaseModels
        invariant |models| == modelCount && !modelTrained
        invariant forall m :: m in models ==> fresh(m) && m.regularization == regularization && !m.modelTrained
        invariant Valid()
      {
        var m := new TreeClassifier(numberOfFeatures, numberOfClasses, regularization, rule);
        models := models + [m];
      }
    }

    /** The derived `train`: every base model trains on its own bootstrap
        list drawn from `trainIndices`; the ensemble is marked trained only
        after all of them. */
    method Train(data: Matrix, trainLabels: Labels, trainIndices: seq<int>)
      returns (ghost samples: seq<seq<int>>, ghost grown: seq<GrownRecord>, ghost inputs: seq<GrowInput>)
      modifies this, set m | m in models, set m | m in models :: m.tree
      requires Valid() && Rectangular(data) && data.cols == numberOfFeatures
      requires |trainLabels.labelData| == |data.rows| && Labelled(trainIndices, trainLabels.labelData, numberOfClasses)
      ensures Valid() && models == old(models) && modelTrained
      ensures forall m :: m in models ==> m.modelTrained
      ensures |samples| == |models|
      ensures forall i :: 0 <= i < |samples| ==>
                |samples[i]| == |trainIndices| && forall j :: 0 <= j < |samples[i]| ==> samples[i][j] in trainIndices
      ensures ModelsGrown(models, grown, inputs, samples, old(ModelTables(models)), trainLabels.labelData, numberOfClasses,
                          regularization)
    {
      samples, grown, inputs := BagForest(models, data, trainLabels, numberOfFeatures, numberOfClasses, regularization,
                                          trainIndices);
      modelTrained := true;
    }

    /** The labels the base models predict for `x`, in order, or the first
        error. */
    function Votes(x: seq<real>, n: nat): (r: Result<seq<real>>)
      reads this, set m | m in models, set m | m in models :: m.tree
      requires n <= |models|
      ensures r.Success? ==> |r.value| == n
    {
      if n == 0 then Success([])
      else
        match Votes(x, n - 1)
        case Failure(e) => Failure(e)
        case Success(front) =>
          assert models[n - 1] in models;
          match models[n - 1].Label(x)
          case Failure(e) => Failure(e)
          case Success(v) => Success(front + [v])
    }

    /** One more base model: its label extends the votes, or its error
        ends them. */
    lemma VotesStep(x: seq<real>, n: nat, front: seq<real>)
      requires n < |models| && Votes(x, n) == Success(front)
      ensures models[n].Label(x).Failure? ==> Votes(x, n + 1) == Failure(models[n].Label(x).error)
      ensures models[n].Label(x).Success? ==> Votes(x, n + 1) == Success(front + [models[n].Label(x).value])
    {
    }

    lemma {:induction false} VotesPrefixFailure(x: seq<real>, n: nat)
      requires n <= |models| && Votes(x, n).Failure?
      ensures Votes(x, |models|) == Votes(x, n)
      decreases |models| - n
    {
      if n < |models| {
        VotesPrefixFailure(x, n + 1);
      }
    }

    /** The prediction loop of `predictOne`: every base model's label for
        `x`, each one a class of the ensemble, or the first error. */
    method CollectVotes(x: seq<real>) returns (r: Result<seq<real>>)
      requires Valid() && |x| == numberOfFeatures
      ensures r == Votes(x, |models|)
      ensures r.Success? && numberOfClasses >= 1 ==> Votable(r.value, numberOfClasses)
    {
      var predictions: seq<real> := [];
      for modelId := 0 to |models|
        invariant Votes(x, modelId) == Success(predictions)
        invariant numberOfClasses >= 1 ==> Votable(predictions, numberOfClasses)
      {
        var next := CastVote(x, modelId, predictions);
        if next.Failure? {
          VotesPrefixFailure(x, modelId + 1);
          return next;
        }
        predictions := next.value;
      }
      r := Success(predictions);
    }

    /** One pass of the prediction loop: the label of base model `n` added
        to the votes so far, or its error. */
    method CastVote(x: seq<real>, n: nat, predictions: seq<real>) returns (r: Result<seq<real>>)
      requires Valid() && |x| == numberOfFeatures && n < |models|
      requires Votes(x, n) == Success(predictions)
      requires numberOfClasses >= 1 ==> Votable(predictions, numberOfClasses)
      ensures r == Votes(x, n + 1)
      ensures r.Success? && numberOfClasses >= 1 ==> Votable(r.value, numberOfClasses)
    {
      var m := models[n];
      assert m in models;
      var predictedLabel := m.PredictOne(x);
      VotesStep(x, n, predictions);
      if predictedLabel.Failure? {
        return Failure(predictedLabel.error);
      }
      if numberOfClasses >= 1 {
        VotableAppend(predictions, predictedLabel.value, numberOfClasses);
      }
      r := Success(predictions + [predictedLabel.value]);
    }

    /** Asks every base model for its label and returns the smallest label
        with the most votes; every model casts exactly one vote. */
    method PredictOne(x: seq<real>) returns (r: Result<real>)
      requires Valid() && |x| == numberOfFeatures && numberOfClasses >= 1
      ensures r.Failure? <==> Votes(x, |models|).Failure?
      ensures r.Success? ==> Votable(Votes(x, |models|).value, numberOfClasses)
      ensures r.Success? ==> Sum(Ballot(Votes(x, |models|).value, numberOfClasses)) == |models|
      ensures r.Success? ==> r.value == FirstMax(Ballot(Votes(x, |models|).value, numberOfClasses)) as real
    {
      var predictions := CollectVotes(x);
      if predictions.Failure? {
        return Failure(predictions.error);
      }
      BallotTotal(predictions.value, numberOfClasses);
      var winner := MajorityVote(predictions.value, numberOfClasses);
      r := Success(winner as real);
    }

    /** `_clearModel` and the base-class `clear`: every base model is
        cleared, and so is the ensemble. */
    method Clear()
      modifies this, set m | m in models, set m | m in models :: m.tree
      requires Valid()
      ensures Valid() && models == old(models) && !modelTrained
      ensures forall m :: m in models ==> !m.modelTrained && m.tree.nodes == [] && m.tree.leafNodeToLabel == []
    {
      for modelId := 0 to |models|
        invariant models == old(models) && Valid()
        invariant forall i :: 0 <= i < modelId ==>
                    !models[i].modelTrained && models[i].tree.nodes == [] && models[i].tree.leafNodeToLabel == []
      {
        models[modelId].Clear();
      }
      modelTrained := false;
    }
  }

  /** A whole-number label of one of the `K` classes adds a valid vote. */
  /** The bagging constructor with its failure: building the first base
      model runs the tree classifier's check on the parameters, so the
      construction fails exactly when there is a base model and the
      parameters fail that check. */
  method NewBaggingClassifier(numberOfFeatures: nat, numberOfClasses: nat, numberOfBaseModels: nat,
                              regularization: Regularization, rule: Rule)
    returns (r: Result<BaggingClassifier>)
    requires BuilderFor(regularization) == DepthFirst
    ensures r.Failure? <==> numberOfBaseModels > 0 && Validate(regularization).Failure?
    ensures r.Success? ==> fresh(r.value) && r.value.Valid() && !r.value.modelTrained
    ensures r.Success? ==> r.value.numberOfFeatures == numberOfFeatures && r.value.numberOfClasses == numberOfClasses
    ensures r.Success? ==> |r.value.models| == numberOfBaseModels
                           && forall m :: m in r.value.models ==> m.regularization == regularization && !m.modelTrained
  {
    if numberOfBaseModels > 0 {
      var checked := Validate(regularization);
      if checked.Failure? {
        return Failure(checked.error);
      }
    }
    var bagging := new BaggingClassifier(numberOfFeatures, numberOfClasses, numberOfBaseModels, regularization, rule);
    r := Success(bagging);
  }

  lemma VotableAppend(predictions: seq<real>, y: real, K: nat)
    requires Votable(predictions, K)
    requires IsClassLabel(y, K)
    ensures Votable(predictions + [y], K)
  {
    assert ClassOf(y) == y.Floor;
    assert forall m :: 0 <= m < |predictions| ==> (predictions + [y])[m] == predictions[m];
  }

  // Gradient boosting

  /** The sum of the values the trees reach for `x`, or the first tree's
      error. */
  function TreeSum(trees: seq<Tree<real>>, x: seq<real>): (r: Result<real>)
    reads set t | t in trees
  {
    if |trees| == 0 then Success(0.0)
    else
      var m := |trees| - 1;
      match TreeSum(trees[..m], x)
      case Failure(e) => Failure(e)
      case Success(acc) =>
        match trees[m].Prediction(x)
        case Failure(e) => Failure(e)
        case Success(v) => Success(acc + v)
  }

  lemma {:induction false} TreeSumPrefixFailure(trees: seq<Tree<real>>, x: seq<real>, n: int)
    requires 0 <= n <= |trees| && TreeSum(trees[..n], x).Failure?
    ensures TreeSum(trees, x) == TreeSum(trees[..n], x)
    decreases |trees| - n
  {
    if n < |trees| {
      assert trees[..n + 1][..n] == trees[..n];
      TreeSumPrefixFailure(trees, x, n + 1);
    } else {
      assert trees[..n] == trees;
    }
  }

  /** One more tree in the sum: its prediction's error, or the sum grown by
      its prediction. */
  lemma TreeSumStep(trees: seq<Tree<real>>, x: seq<real>, n: int, acc: real)
    requires 0 <= n < |trees| && TreeSum(trees[..n], x) == Success(acc)
    ensures trees[n].Prediction(x).Failure? ==> TreeSum(trees[..n + 1], x) == Failure(trees[n].Prediction(x).error)
    ensures trees[n].Prediction(x).Success? ==> TreeSum(trees[..n + 1], x) == Success(acc + trees[n].Prediction(x).value)
  {
    assert trees[..n + 1][..n] == trees[..n];
  }

  /** The sum over a concatenation of tree lists is the sum of the two
      sums, so the order of the trees does not matter beyond which error is
      reported first. */
  lemma {:induction false} TreeSumAppend(a: seq<Tree<real>>, b: seq<Tree<real>>, x: seq<real>)
    requires TreeSum(a, x).Success? && TreeSum(b, x).Success?
    ensures TreeSum(a + b, x) == Success(TreeSum(a, x).value + TreeSum(b, x).value)
  {
    if |b| > 0 {
      var m := |b| - 1;
      assert (a + b)[..|a + b| - 1] == a + b[..m];
      assert (a + b)[|a + b| - 1] == b[m];
      TreeSumAppend(a, b[..m], x);
    } else {
      assert a + b == a;
    }
  }

  class GradientBoostingRegressor {
    const numberOfFeatures: nat
    const regularization: Regularization
    const numberOfFeaturesToSplit: int
    var learningRate: real
    var trees: seq<Tree<real>>
    var modelTrained: bool

    ghost predicate Valid()
      reads this, set t | t in trees
    {
      Validate(regularization).Success?
      && forall t :: t in trees ==> t.Valid() && t.numberOfFeatures == numberOfFeatures
    }

    /** The constructor once the parameters passed the check: `numberOfTrees`
        empty regression trees, all features candidates for a split, and a
        learning rate of 1. */
    constructor(numberOfFeatures: nat, numberOfTrees: nat, regularization: Regularization)
      requires Validate(regularization).Success?
      ensures this.numberOfFeatures == numberOfFeatures && this.regularization == regularization
      ensures numberOfFeaturesToSplit == numberOfFeatures && learningRate == 1.0 && !modelTrained
      ensures |trees| == numberOfTrees && forall t :: t in trees ==> fresh(t) && t.nodes == [] && t.leafNodeToLabel == []
      ensures Valid()
    {
      this.numberOfFeatures := numberOfFeatures;
      this.regularization := regularization;
      numberOfFeaturesToSplit := numberOfFeatures;
      learningRate := 1.0;
      modelTrained := false;
      trees := [];
      new;
      for treeCount := 0 to numberOfTrees
        invariant |trees| == treeCount && !modelTrained && learningRate == 1.0
        invariant forall t :: t in trees ==> fresh(t) && t.nodes == [] && t.leafNodeToLabel == []
        invariant Valid()
      {
        var t := new Tree(numberOfFeatures, AnyValue());
        trees := trees + [t];
      }
    }

    /** Adds up the values the trees reach for `x`; the learning rate is
        not applied. */
    method PredictOne(x: seq<real>) returns (r: Result<real>)
      requires Valid() && |x| == numberOfFeatures
      ensures r == TreeSum(trees, x)
    {
      var result := 0.0;
      for treeId := 0 to |trees|
        invariant TreeSum(trees[..treeId], x) == Success(result)
      {
        assert trees[treeId] in trees;
        var value := trees[treeId].PredictOne(x);
        TreeSumStep(trees, x, treeId, result);
        if value.Failure? {
          TreeSumPrefixFailure(trees, x, treeId + 1);
          return Failure(value.error);
        }
        result := result + value.value;
      }
      assert trees[..|trees|] == trees;
      r := Success(result);
    }

    /** `_clearModel` as written: the tree vector itself is emptied. */
    method ClearAsWritten()
      modifies this
      requires Valid()
      ensures trees == [] && !modelTrained && Valid()
    {
      trees := [];
      modelTrained := false;
    }

    /** `_clearModel` resetting every tree instead: the model keeps its
        trees, each one empty. */
    method Clear()
      modifies this, set t | t in trees
      requires Valid()
      ensures Valid() && trees == old(trees) && !modelTrained
      ensures forall t :: t in trees ==> t.nodes == [] && t.leafNodeToLabel == []
    {
      for treeId := 0 to |trees|
        invariant trees == old(trees) && Valid()
        invariant forall i :: 0 <= i < treeId ==> trees[i].nodes == [] && trees[i].leafNodeToLabel == []
      {
        trees[treeId].Reset();
      }
      modelTrained := false;
    }
  }

  /** A boosting model whose tree vector was emptied predicts 0 for every
      instance. */
  lemma EmptiedBoostingPredictsZero(x: seq<real>)
    ensures TreeSum([], x) == Success(0.0)
  {
  }

  /** Checks the parameters, then builds a boosting model. */
  method NewGradientBoosting(numberOfFeatures: nat, numberOfTrees: nat, regularization: Regularization)
    returns (r: Result<GradientBoostingRegressor>)
    ensures r.Failure? <==> Validate(regularization).Failure?
    ensures r.Success? ==> fresh(r.value) && r.value.Valid() && |r.value.trees| == numberOfTrees
    ensures r.Success? ==> r.value.learningRate == 1.0 && r.value.numberOfFeaturesToSplit == numberOfFeatures
  {
    var checked := Validate(regularization);
    if checked.Failure? {
      return Failure(checked.error);
    }
    var model := new GradientBoostingRegressor(numberOfFeatures, numberOfTrees, regularization);
    r := Success(model);
  }
}
