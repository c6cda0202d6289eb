/**
 * The one-versus-one multiclass classifier: one binary model per pair of
 * classes `i < j`, trained on the samples of those two classes (class `i`
 * relabelled 0, class `j` relabelled 1); a prediction counts one vote per
 * pair model and picks the smallest class with the most votes. The binary
 * model is the library's tree classifier over two classes.
 */
module Multiclass {
  import opened Outcome
  import opened Definitions
  import opened Counting
  import opened Samples
  import opened Impurity
  import opened Voting
  import opened BaseModels
  import opened Trees
  import opened Records
  import opened TreeModels
  import opened Ensembles

  // The pairs of classes

  /** The pairs `(i, i+1), ..., (i, K-1)` the inner loop visits for the
      first class `i`. */
  function Row(i: nat, K: nat): (r: seq<(int, int)>)
    requires i < K
    ensures |r| == K - 1 - i
    ensures forall d :: 0 <= d < |r| ==> r[d] == (i, i + 1 + d)
  {
    seq(K - 1 - i, d => (i, i + 1 + d))
  }

  /** The pairs the two nested loops visit, from first class `i` on. */
  function PairsFrom(i: nat, K: nat): seq<(int, int)>
    decreases K - i
  {
    if i + 1 >= K then [] else Row(i, K) + PairsFrom(i + 1, K)
  }

  /** All pairs `i < j` of the `K` classes, in the order the model
      vector holds their binary models. */
  function Pairs(K: nat): (ps: seq<(int, int)>)
    ensures ClassPairs(ps, K) && forall p :: 0 <= p < |ps| ==> ps[p].0 < ps[p].1
  {
    PairsFromShape(0, K);
    PairsFrom(0, K)
  }

  /** `p` comes before `q` in lexicographic order. */
  predicate Before(p: (int, int), q: (int, int))
  {
    p.0 < q.0 || (p.0 == q.0 && p.1 < q.1)
  }

  /** Twice the number of pairs from first class `i` on. */
  lemma {:induction false} PairsFromCount(i: nat, K: nat)
    requires i <= K
    ensures 2 * |PairsFrom(i, K)| == (K - i) * (K - i - 1)
    decreases K - i
  {
    if i + 1 < K {
      PairsFromCount(i + 1, K);
      var m := K - i - 1;
      assert 2 * m + m * (m - 1) == m * (m + 1);
    }
  }

  /** There are `K(K-1)/2` pairs. */
  lemma PairsCount(K: nat)
    ensures |Pairs(K)| == K * (K - 1) / 2
  {
    PairsFromCount(0, K);
  }

  /** The pairs from first class `i` on are exactly the pairs
      `i <= a < b < K`, in strictly increasing lexicographic order. */
  lemma {:induction false} PairsFromShape(i: nat, K: nat)
    ensures forall p :: 0 <= p < |PairsFrom(i, K)| ==>
              i <= PairsFrom(i, K)[p].0 < PairsFrom(i, K)[p].1 < K
    ensures forall p, q :: 0 <= p < q < |PairsFrom(i, K)| ==> Before(PairsFrom(i, K)[p], PairsFrom(i, K)[q])
    ensures forall a, b :: i <= a < b < K ==> (a, b) in PairsFrom(i, K)
    decreases K - i
  {
    if i + 1 < K {
      PairsFromShape(i + 1, K);
      var row, rest := Row(i, K), PairsFrom(i + 1, K);
      var all := row + rest;
      assert PairsFrom(i, K) == all;
      assert forall p :: |row| <= p < |all| ==> all[p] == rest[p - |row|];
      forall a, b | i <= a < b < K
        ensures (a, b) in all
      {
        if a == i {
          assert all[b - i - 1] == (a, b);
        } else {
          assert (a, b) in rest;
        }
      }
    }
  }

  /** The pairs are exactly those `0 <= a < b < K`, in strictly increasing
      lexicographic order, so none repeats. */
  lemma PairsShape(K: nat)
    ensures forall p :: 0 <= p < |Pairs(K)| ==> 0 <= Pairs(K)[p].0 < Pairs(K)[p].1 < K
    ensures forall p, q :: 0 <= p < q < |Pairs(K)| ==> Before(Pairs(K)[p], Pairs(K)[q])
    ensures forall a, b :: 0 <= a < b < K ==> (a, b) in Pairs(K)
  {
    PairsFromShape(0, K);
  }

  /** Pair `pair` names class `k`. */
  function Involves(k: int): ((int, int)) -> bool
  {
    (pair: (int, int)) => pair.0 == k || pair.1 == k
  }

  /** The first `m` pairs of the row of first class `i`. */
  function RowPart(i: int, m: nat): (r: seq<(int, int)>)
    ensures |r| == m && forall d :: 0 <= d < m ==> r[d] == (i, i + 1 + d)
  {
    seq(m, d => (i, i + 1 + d))
  }

  lemma {:induction false} RowPartInvolving(i: int, m: nat, k: int)
    ensures Count(RowPart(i, m), Involves(k)) == if i == k then m else if i < k <= i + m then 1 else 0
  {
    if m > 0 {
      assert RowPart(i, m)[..m - 1] == RowPart(i, m - 1);
      RowPartInvolving(i, m - 1, k);
    }
  }

  /** Each class `k >= i` is named by `K - 1 - i` of the pairs from first
      class `i` on: `k - i` as second class and `K - 1 - k` as first. */
  lemma {:induction false} PairsFromInvolving(i: nat, K: nat, k: int)
    requires i <= k < K
    ensures Count(PairsFrom(i, K), Involves(k)) == K - 1 - i
    decreases K - i
  {
    if i + 1 < K {
      var row, rest := Row(i, K), PairsFrom(i + 1, K);
      assert PairsFrom(i, K) == row + rest;
      assert row == RowPart(i, K - 1 - i);
      RowPartInvolving(i, K - 1 - i, k);
      CountAppend(row, rest, Involves(k));
      if k == i {
        PairsAfterMiss(i, K);
      } else {
        PairsFromInvolving(i + 1, K, k);
      }
    }
  }

  /** The pairs from first class `i + 1` on do not name class `i`. */
  lemma PairsAfterMiss(i: nat, K: nat)
    ensures Count(PairsFrom(i + 1, K), Involves(i)) == 0
  {
    PairsFromShape(i + 1, K);
    CountNone(PairsFrom(i + 1, K), Involves(i));
  }

  /** Every class is named by `K - 1` pairs: one per other class. */
  lemma PairsInvolving(K: nat, k: int)
    requires 0 <= k < K
    ensures Count(Pairs(K), Involves(k)) == K - 1
  {
    PairsFromInvolving(0, K, k);
  }

  // Votes

  /** The class a pair model's result votes for: the first class of the
      pair when the result is 0, the second otherwise. */
  function VoteOf(pair: (int, int), result: real): (k: int)
    ensures k == pair.0 || k == pair.1
  {
    if result == 0.0 then pair.0 else pair.1
  }

  /** Both classes of every pair are classes of the model. */
  predicate ClassPairs(pairs: seq<(int, int)>, K: nat)
  {
    forall p :: 0 <= p < |pairs| ==> 0 <= pairs[p].0 < K && 0 <= pairs[p].1 < K
  }

  /** The vote vector after one vote per pair model, counted in a vector
      of `K` zeros. */
  function Tally(pairs: seq<(int, int)>, results: seq<real>, K: nat): (votes: seq<int>)
    requires |results| == |pairs| && ClassPairs(pairs, K)
    ensures |votes| == K
  {
    if |pairs| == 0 then Zeros(K)
    else
      var n := |pairs| - 1;
      var votes := Tally(pairs[..n], results[..n], K);
      var k := VoteOf(pairs[n], results[n]);
      votes[k := votes[k] + 1]
  }

  /** One more vote: the tally of a longer prefix adds one for the class
      the new result votes for. */
  lemma TallyStep(pairs: seq<(int, int)>, results: seq<real>, v: real, K: nat, n: int)
    requires ClassPairs(pairs, K) && 0 <= n < |pairs| && |results| == n
    ensures ClassPairs(pairs[..n], K) && ClassPairs(pairs[..n + 1], K)
    ensures var votes := Tally(pairs[..n], results, K); var k := VoteOf(pairs[n], v);
            Tally(pairs[..n + 1], results + [v], K) == votes[k := votes[k] + 1]
  {
    assert pairs[..n + 1][..n] == pairs[..n];
    assert (results + [v])[..n] == results;
  }

  /** Counts one vote per pair result in a vector of `K` zeros. */
  method CountVotes(pairs: seq<(int, int)>, results: seq<real>, K: nat) returns (votes: seq<int>)
    requires |results| == |pairs| && ClassPairs(pairs, K)
    ensures votes == Tally(pairs, results, K)
    ensures Sum(votes) == |pairs|
  {
    votes := Zeros(K);
    for modelCount := 0 to |pairs|
      invariant votes == Tally(pairs[..modelCount], results[..modelCount], K)
    {
      TallyStep(pairs, results[..modelCount], results[modelCount], K, modelCount);
      assert results[..modelCount] + [results[modelCount]] == results[..modelCount + 1];
      var k := VoteOf(pairs[modelCount], results[modelCount]);
      votes := votes[k := votes[k] + 1];
    }
    assert pairs[..|pairs|] == pairs && results[..|results|] == results;
    TallyTotal(pairs, results, K);
  }

  /** Each pair model casts exactly one vote. */
  lemma {:induction false} TallyTotal(pairs: seq<(int, int)>, results: seq<real>, K: nat)
    requires |results| == |pairs| && ClassPairs(pairs, K)
    ensures Sum(Tally(pairs, results, K)) == |pairs|
  {
    if |pairs| == 0 {
      SumZeros(K);
    } else {
      var n := |pairs| - 1;
      TallyTotal(pairs[..n], results[..n], K);
      SumUpdate(Tally(pairs[..n], results[..n], K), VoteOf(pairs[n], results[n]), 1);
    }
  }

  /** A class gets at most one vote per pair that names it, and exactly
      that many when it wins every such pair. */
  lemma {:induction false} TallyBound(pairs: seq<(int, int)>, results: seq<real>, K: nat, k: int)
    requires |results| == |pairs| && ClassPairs(pairs, K) && 0 <= k < K
    ensures Tally(pairs, results, K)[k] <= Count(pairs, Involves(k))
    ensures (forall p :: 0 <= p < |pairs| && Involves(k)(pairs[p]) ==> VoteOf(pairs[p], results[p]) == k) ==>
              Tally(pairs, results, K)[k] == Count(pairs, Involves(k))
  {
    if |pairs| > 0 {
      var n := |pairs| - 1;
      TallyBound(pairs[..n], results[..n], K, k);
    }
  }

  /** A class that loses a pair naming it gets fewer votes than the pairs
      that name it. */
  lemma {:induction false} TallyLost(pairs: seq<(int, int)>, results: seq<real>, K: nat, k: int, lost: int)
    requires |results| == |pairs| && ClassPairs(pairs, K) && 0 <= k < K
    requires 0 <= lost < |pairs| && Involves(k)(pairs[lost]) && VoteOf(pairs[lost], results[lost]) != k
    ensures Tally(pairs, results, K)[k] < Count(pairs, Involves(k))
  {
    var n := |pairs| - 1;
    TallyBound(pairs[..n], results[..n], K, k);
    if lost < n {
      TallyLost(pairs[..n], results[..n], K, k, lost);
    }
  }

  /** A class that wins every pair it is in is the prediction. */
  lemma BeatsAll(K: nat, results: seq<real>, c: int)
    requires |results| == |Pairs(K)| && 0 <= c < K
    requires forall p :: 0 <= p < |Pairs(K)| && Involves(c)(Pairs(K)[p]) ==> VoteOf(Pairs(K)[p], results[p]) == c
    ensures FirstMax(Tally(Pairs(K), results, K)) == c
  {
    var pairs := Pairs(K);
    PairsShape(K);
    var votes := Tally(pairs, results, K);
    TallyBound(pairs, results, K, c);
    PairsInvolving(K, c);
    forall k | 0 <= k < K && k != c
      ensures votes[k] < votes[c]
    {
      var a, b := if k < c then k else c, if k < c then c else k;
      assert (a, b) in pairs;
      var lost :| 0 <= lost < |pairs| && pairs[lost] == (a, b);
      TallyLost(pairs, results, K, k, lost);
      PairsInvolving(K, k);
    }
    FirstMaxUnique(votes, c);
  }

  // Training subsets

  /** The indices among the first `n` samples whose label equals class `i`
      or class `j`, in their original order. */
  function Subset(labels: seq<real>, i: int, j: int, n: nat): (s: seq<int>)
    requires n <= |labels|
    ensures forall p :: 0 <= p < |s| ==> 0 <= s[p] < n && (labels[s[p]] == i as real || labels[s[p]] == j as real)
    ensures forall p, q :: 0 <= p < q < |s| ==> s[p] < s[q]
  {
    if n == 0 then []
    else
      var s := Subset(labels, i, j, n - 1);
      if labels[n - 1] == i as real || labels[n - 1] == j as real then s + [n - 1] else s
  }

  /** Every sample labelled exactly `i` or `j` is in the subset. */
  lemma {:induction false} SubsetMember(labels: seq<real>, i: int, j: int, n: nat, d: int)
    requires n <= |labels| && 0 <= d < n && (labels[d] == i as real || labels[d] == j as real)
    ensures d in Subset(labels, i, j, n)
  {
    if d < n - 1 {
      SubsetMember(labels, i, j, n - 1, d);
    }
  }

  /** The binary labels of the subset: 0 for class `i`, 1 otherwise. */
  function BinaryLabels(labels: seq<real>, i: int, s: seq<int>): (b: seq<real>)
    requires forall p :: 0 <= p < |s| ==> 0 <= s[p] < |labels|
    ensures |b| == |s|
    ensures forall p :: 0 <= p < |s| ==> b[p] == if labels[s[p]] == i as real then 0.0 else 1.0
  {
    seq(|s|, p requires 0 <= p < |s| => if labels[s[p]] == i as real then 0.0 else 1.0)
  }

  /** The inner loop of `train` for the pair `(i, j)`: the rows and binary
      labels of the subset, in order. */
  method PairData(data: Matrix, labels: seq<real>, i: int, j: int) returns (rows: seq<seq<real>>, binary: seq<real>)
    requires |labels| == |data.rows|
    ensures var s := Subset(labels, i, j, |labels|);
              |rows| == |s| && binary == BinaryLabels(labels, i, s)
              && forall p :: 0 <= p < |s| ==> rows[p] == data.rows[s[p]]
  {
    rows, binary := [], [];
    for dataIndex := 0 to |labels|
      invariant var s := Subset(labels, i, j, dataIndex);
                  |rows| == |s| && binary == BinaryLabels(labels, i, s)
                  && forall p :: 0 <= p < |s| ==> rows[p] == data.rows[s[p]]
    {
      if labels[dataIndex] == i as real {
        binary := binary + [0.0];
        rows := rows + [data.rows[dataIndex]];
        continue;
      }
      if labels[dataIndex] == j as real {
        binary := binary + [1.0];
        rows := rows + [data.rows[dataIndex]];
        continue;
      }
    }
  }

  /** When every label is a whole number, the subset of `(i, j)` holds the
      samples of class `i` plus those of class `j`: the size `train`
      reserves for it. */
  lemma {:induction false} PairSubsetSize(labels: seq<real>, i: int, j: int, n: nat)
    requires n <= |labels| && i != j
    requires forall d :: 0 <= d < n ==> Integral(labels[d])
    ensures |Subset(labels, i, j, n)| == Count(Range(0, n), IsClass(labels, i)) + Count(Range(0, n), IsClass(labels, j))
  {
    if n > 0 {
      assert Range(0, n)[..n - 1] == Range(0, n - 1);
      PairSubsetSize(labels, i, j, n - 1);
      assert labels[n - 1] == ClassOf(labels[n - 1]) as real;
    }
  }

  /** The size `train` reserves for the pair `(i, j)`: the counts of the
      two classes, where a label counts toward the class it casts to. */
  function PairBufferSize(labels: seq<real>, K: nat, i: int, j: int): (size: int)
    requires 0 <= i < K && 0 <= j < K
    ensures size == Count(Range(0, |labels|), IsClass(labels, i)) + Count(Range(0, |labels|), IsClass(labels, j))
  {
    ClassCountsCount(Range(0, |labels|), labels, K, i);
    ClassCountsCount(Range(0, |labels|), labels, K, j);
    var counts := ClassCounts(Range(0, |labels|), labels, K);
    counts[i] + counts[j]
  }

  /** `s` is the subset of the pair of classes `pair`, in order, and has
      the size reserved for it. */
  predicate PairSubset(labels: seq<real>, K: nat, pair: (int, int), s: seq<int>)
  {
    0 <= pair.0 < K && 0 <= pair.1 < K
    && s == Subset(labels, pair.0, pair.1, |labels|) && |s| == PairBufferSize(labels, K, pair.0, pair.1)
  }

  /** The input check `train` performs, as written: label type, column
      count, one row per label, every label in `[0, K)`, every class
      present. */
  predicate RejectedAsWritten(data: Matrix, trainLabels: Labels, F: int, K: nat)
  {
    trainLabels.labelType != Classification || data.cols != F
    || |data.rows| != |trainLabels.labelData|
    || (exists i :: 0 <= i < |trainLabels.labelData| && !(0.0 <= trainLabels.labelData[i] < K as real))
    || !Represented(trainLabels.labelData, K)
  }

  /** The check the pair subsets need: also every label a whole number. */
  predicate Rejected(data: Matrix, trainLabels: Labels, F: int, K: nat)
  {
    RejectedAsWritten(data, trainLabels, F, K)
    || exists i :: 0 <= i < |trainLabels.labelData| && !Integral(trainLabels.labelData[i])
  }

  /** The check as written lets the label 1.5 through and counts it toward
      class 1, but the exact comparison of the subset loop skips it: the
      subset of the pair (0, 1) falls one short of the size reserved for
      it. */
  lemma NonIntegralLabelAccepted()
    ensures var data := Matrix(1, [[0.0], [0.0], [0.0]]);
            var labels := [0.0, 1.5, 1.0];
            !RejectedAsWritten(data, Labels(Classification, labels), 1, 2)
            && Rejected(data, Labels(Classification, labels), 1, 2)
            && PairBufferSize(labels, 2, 0, 1) == 3 && |Subset(labels, 0, 1, 3)| == 2
  {
    var labels := [0.0, 1.5, 1.0];
    assert ClassOf(labels[0]) == 0 && ClassOf(labels[1]) == 1;
    assert HasClass(labels, 0) && HasClass(labels, 1);
    assert !Integral(labels[1]);
    assert Range(0, 3)[..2] == Range(0, 2) && Range(0, 2)[..1] == Range(0, 1) && Range(0, 1)[..0] == [];
  }

  /** After the check, both classes of a pair occur among the binary
      labels, so the binary model accepts them. */
  lemma BinaryRepresented(labels: seq<real>, i: int, j: int)
    requires i != j && HasClass(labels, i) && HasClass(labels, j)
    requires forall d :: 0 <= d < |labels| ==> Integral(labels[d])
    ensures Represented(BinaryLabels(labels, i, Subset(labels, i, j, |labels|)), 2)
  {
    var s := Subset(labels, i, j, |labels|);
    var b := BinaryLabels(labels, i, s);
    var di :| 0 <= di < |labels| && ClassOf(labels[di]) == i;
    var dj :| 0 <= dj < |labels| && ClassOf(labels[dj]) == j;
    assert labels[di] == i as real && labels[dj] == j as real;
    SubsetMember(labels, i, j, |labels|, di);
    SubsetMember(labels, i, j, |labels|, dj);
    var pi :| 0 <= pi < |s| && s[pi] == di;
    var pj :| 0 <= pj < |s| && s[pj] == dj;
    assert ClassOf(b[pi]) == 0 && ClassOf(b[pj]) == 1;
    assert HasClass(b, 0) && HasClass(b, 1);
  }

  /** One round of the pair loop of `train`: the pair model trains on the
      rows and binary labels of the subset of `(first, second)`; the model
      accepts them, and `record` witnesses that its tree is grown on every
      row of the subset with those labels. */
  method TrainPair(model: TreeClassifier, data: Matrix, labels: seq<real>, first: int, second: int)
      returns (ghost record: GrownRecord)
    modifies model, model.tree
    requires BaseModel(model, data.cols, 2) && Rectangular(data) && |labels| == |data.rows|
    requires 0 <= first < second && HasClass(labels, first) && HasClass(labels, second)
    requires forall d :: 0 <= d < |labels| ==> Integral(labels[d])
    ensures BaseModel(model, data.cols, 2) && model.modelTrained
    ensures record.0 == StateOf(model.tree)
    ensures GrownBy(record, PairInput(old(model.tree.leafNodeToLabel), model.regularization, labels, first, second))
  {
    ghost var input := PairInput(model.tree.leafNodeToLabel, model.regularization, labels, first, second);
    var rows, binary := PairData(data, labels, first, second);
    BinaryRepresented(labels, first, second);
    var fit := model.Fit(Matrix(data.cols, rows), Labels(Classification, binary));
    assert fit.Success?;
    ghost var leaves, arranged :| Grown(model.tree.nodes, model.tree.leafNodeToLabel, model.tree.maxDepthOfThisTree,
                                       input.table0, input.labels, 2, input.p, input.trainIndices, leaves, arranged);
    record := (StateOf(model.tree), leaves, arranged);
  }

  /** The subsets the pair models train on, pair by pair. */
  function PairSubsets(labels: seq<real>, pairs: seq<(int, int)>): (subsets: seq<seq<int>>)
    ensures |subsets| == |pairs|
    ensures forall p :: 0 <= p < |pairs| ==> subsets[p] == Subset(labels, pairs[p].0, pairs[p].1, |labels|)
  {
    seq(|pairs|, p requires 0 <= p < |pairs| => Subset(labels, pairs[p].0, pairs[p].1, |labels|))
  }

  /** With whole-number labels, the subset of every pair has the size
      reserved for it. */
  lemma PairSubsetsSized(labels: seq<real>, K: nat)
    requires forall d :: 0 <= d < |labels| ==> Integral(labels[d])
    ensures forall p :: 0 <= p < |Pairs(K)| ==>
              PairSubset(labels, K, Pairs(K)[p], PairSubsets(labels, Pairs(K))[p])
  {
    var pairs := Pairs(K);
    forall p | 0 <= p < |pairs|
      ensures PairSubset(labels, K, pairs[p], PairSubsets(labels, pairs)[p])
    {
      assert pairs[p] in pairs;
      PairSubsetSize(labels, pairs[p].0, pairs[p].1, |labels|);
    }
  }

  /** The tree of the pair model `model` was grown, from the leaf table
      `table0`, on every row of the subset of the pair `(first, second)`,
      with the binary labels of that subset. */
  ghost predicate PairGrown(model: TreeClassifier, table0: seq<(int, seq<int>)>, labels: seq<real>,
                            first: int, second: int)
    reads model.tree
  {
    var g := PairInput(table0, model.regularization, labels, first, second);
    GrownFrom(model.tree.nodes, model.tree.leafNodeToLabel, model.tree.maxDepthOfThisTree,
              g.table0, g.labels, g.K, g.p, g.trainIndices)
  }

  /** What the model of the pair `(first, second)` grows its tree from: the
      leaf table `table0`, the binary labels of the pair's subset, two
      classes, the parameters `p`, and every row of the subset. */
  ghost function PairInput(table0: seq<(int, seq<int>)>, p: Regularization, labels: seq<real>, first: int, second: int)
    : GrowInput
  {
    var s := Subset(labels, first, second, |labels|);
    GrowInput(table0, BinaryLabels(labels, first, s), 2, p, Range(0, |s|))
  }

  /** `PairInput` for every model of the pair loop, from its leaf table in
      `tables0` and its pair in `pairs`. */
  ghost function PairInputs(tables0: seq<seq<(int, seq<int>)>>, models: seq<TreeClassifier>, labels: seq<real>,
                            pairs: seq<(int, int)>): (inputs: seq<GrowInput>)
    requires |tables0| == |models| == |pairs|
    ensures |inputs| == |pairs|
    ensures forall p :: 0 <= p < |pairs| ==>
              inputs[p] == PairInput(tables0[p], models[p].regularization, labels, pairs[p].0, pairs[p].1)
  {
    seq(|pairs|, p requires 0 <= p < |pairs| => PairInput(tables0[p], models[p].regularization, labels, pairs[p].0, pairs[p].1))
  }

  /** One step of the pair loop: trains model `n` on its pair. */
  method TrainNext(models: seq<TreeClassifier>, pairs: seq<(int, int)>, data: Matrix, labels: seq<real>, F: nat, n: nat,
                   ghost grown: seq<GrownRecord>, ghost tables0: seq<seq<(int, seq<int>)>>, ghost inputs: seq<GrowInput>)
      returns (ghost grown': seq<GrownRecord>)
    modifies models[n], models[n].tree
    requires n < |models| == |pairs| && DistinctModels(models)
    requires Rectangular(data) && data.cols == F && |labels| == |data.rows|
    requires 0 <= pairs[n].0 < pairs[n].1 && HasClass(labels, pairs[n].0) && HasClass(labels, pairs[n].1)
    requires forall d :: 0 <= d < |labels| ==> Integral(labels[d])
    requires n < |inputs| && ModelSlots(models, F, 2, n, grown, tables0) && AllGrown(grown, inputs[..n])
    requires inputs[n] == PairInput(tables0[n], models[n].regularization, labels, pairs[n].0, pairs[n].1)
    ensures ModelSlots(models, F, 2, n + 1, grown', tables0) && AllGrown(grown', inputs[..n + 1])
  {
    ghost var r := PairSlot(models, pairs[n].0, pairs[n].1, data, labels, F, n, grown, tables0);
    AllGrownNext(grown, inputs, n, r);
    grown' := grown + [r];
  }

  /** Trains model `n` of the pair loop on the pair `(first, second)`: the
      other models keep their slots, and model `n` is trained as `record`
      witnesses. */
  method PairSlot(models: seq<TreeClassifier>, first: int, second: int, data: Matrix, labels: seq<real>, F: nat, n: nat,
                  ghost grown: seq<GrownRecord>, ghost tables0: seq<seq<(int, seq<int>)>>)
      returns (ghost record: GrownRecord)
    modifies models[n], models[n].tree
    requires n < |models| && DistinctModels(models)
    requires Rectangular(data) && data.cols == F && |labels| == |data.rows|
    requires 0 <= first < second && HasClass(labels, first) && HasClass(labels, second)
    requires forall d :: 0 <= d < |labels| ==> Integral(labels[d])
    requires ModelSlots(models, F, 2, n, grown, tables0)
    ensures ModelSlots(models, F, 2, n + 1, grown + [record], tables0)
    ensures GrownBy(record, PairInput(tables0[n], models[n].regularization, labels, first, second))
  {
    var model := models[n];
    assert forall p :: 0 <= p < |models| && p != n ==> models[p] != model && models[p].tree != model.tree;
    assert ModelSlot(model, F, 2, tables0[n], None);
    assert forall i :: 0 <= i < |models| && i != n ==>
             ModelSlot(models[i], F, 2, tables0[i], if i < n then Some(grown[i].0) else None);
    record := TrainPair(model, data, labels, first, second);
    assert forall i :: 0 <= i < |models| && i != n ==>
             ModelSlot(models[i], F, 2, tables0[i], if i < n then Some(grown[i].0) else None);
    ModelSlotsNext(models, F, 2, n, grown, record, tables0);
  }

  /** Read back after the pair loop: every model is a trained two-class
      base model whose tree was grown on its pair. */
  lemma PairsTrained(models: seq<TreeClassifier>, F: nat, grown: seq<GrownRecord>, tables0: seq<seq<(int, seq<int>)>>,
                     inputs: seq<GrowInput>, labels: seq<real>, pairs: seq<(int, int)>)
    requires |models| == |pairs| && ModelSlots(models, F, 2, |models|, grown, tables0)
    requires inputs == PairInputs(tables0, models, labels, pairs) && AllGrown(grown, inputs)
    ensures forall m :: m in models ==> BaseModel(m, F, 2) && m.modelTrained
    ensures forall p :: 0 <= p < |models| ==> PairGrown(models[p], tables0[p], labels, pairs[p].0, pairs[p].1)
  {
    ModelSlotsTrained(models, F, 2, grown, tables0);
    AllGrownEach(grown, inputs);
  }

  /** The pair loop of `train` over the models `models`: model `p` trains
      on the subset of the pair `pairs[p]`, and its tree is grown there. */
  method TrainEach(models: seq<TreeClassifier>, pairs: seq<(int, int)>, data: Matrix, labels: seq<real>, F: nat)
    modifies set m | m in models, set m | m in models :: m.tree
    requires |models| == |pairs| && DistinctModels(models) && forall m :: m in models ==> BaseModel(m, F, 2)
    requires Rectangular(data) && data.cols == F && |labels| == |data.rows|
    requires forall p :: 0 <= p < |pairs| ==>
               0 <= pairs[p].0 < pairs[p].1 && HasClass(labels, pairs[p].0) && HasClass(labels, pairs[p].1)
    requires forall d :: 0 <= d < |labels| ==> Integral(labels[d])
    ensures forall m :: m in models ==> BaseModel(m, F, 2) && m.modelTrained
    ensures forall p :: 0 <= p < |models| ==>
              PairGrown(models[p], old(ModelTables(models))[p], labels, pairs[p].0, pairs[p].1)
  {
    ghost var tables0 := ModelTables(models);
    ghost var inputs := PairInputs(tables0, models, labels, pairs);
    ModelSlotsStart(models, F, 2);
    ghost var grown := TrainLoop(models, pairs, data, labels, F, tables0, inputs);
    PairsTrained(models, F, grown, tables0, inputs, labels, pairs);
  }

  /** The loop of `TrainEach`, from the leaf tables `tables0`: model `p`
      grows from `inputs[p]`, as the records `grown` witness. */
  method TrainLoop(models: seq<TreeClassifier>, pairs: seq<(int, int)>, data: Matrix, labels: seq<real>, F: nat,
                   ghost tables0: seq<seq<(int, seq<int>)>>, ghost inputs: seq<GrowInput>)
      returns (ghost grown: seq<GrownRecord>)
    modifies set m | m in models, set m | m in models :: m.tree
    requires |models| == |pairs| && DistinctModels(models)
    requires Rectangular(data) && data.cols == F && |labels| == |data.rows|
    requires forall p :: 0 <= p < |pairs| ==>
               0 <= pairs[p].0 < pairs[p].1 && HasClass(labels, pairs[p].0) && HasClass(labels, pairs[p].1)
    requires forall d :: 0 <= d < |labels| ==> Integral(labels[d])
    requires ModelSlots(models, F, 2, 0, [], tables0) && inputs == PairInputs(tables0, models, labels, pairs)
    ensures ModelSlots(models, F, 2, |models|, grown, tables0) && AllGrown(grown, inputs)
  {
    grown := [];
    for modelCount := 0 to |pairs|
      invariant ModelSlots(models, F, 2, modelCount, grown, tables0) && AllGrown(grown, inputs[..modelCount])
    {
      grown := TrainNext(models, pairs, data, labels, F, modelCount, grown, tables0, inputs);
    }
    assert inputs[..|pairs|] == inputs;
  }

  class MulticlassClassifier {
    const numberOfFeatures: nat
    const numberOfClasses: nat
    var binaryModels: seq<TreeClassifier>
    var modelTrained: bool

    /** One valid two-class model per pair of classes, no two sharing an
        object or a tree. */
    ghost predicate Valid()
      reads this, set m | m in binaryModels, set m | m in binaryModels :: m.tree
    {
      |binaryModels| == |Pairs(numberOfClasses)|
      && (forall m :: m in binaryModels ==> BaseModel(m, numberOfFeatures, 2))
      && DistinctModels(binaryModels)
    }

    /** `K(K-1)/2` fresh binary models, all with the same parameters. */
    constructor(numberOfClasses: nat, numberOfFeatures: nat, regularization: Regularization, rule: Rule)
      requires Validate(regularization).Success? && BuilderFor(regularization) == DepthFirst
      ensures this.numberOfFeatures == numberOfFeatures && this.numberOfClasses == numberOfClasses
      ensures |binaryModels| == numberOfClasses * (numberOfClasses - 1) / 2
      ensures forall m :: m in binaryModels ==> fresh(m) && !m.modelTrained && m.regularization == regularization
      ensures !modelTrained && Valid()
    {
      this.numberOfFeatures := numberOfFeatures;
      this.numberOfClasses := numberOfClasses;
      binaryModels := [];
      modelTrained := false;
      new;
      PairsCount(numberOfClasses);
      for modelCount := 0 to |Pairs(numberOfClasses)|
        invariant |binaryModels| == modelCount && !modelTrained
        invariant forall m :: m in binaryModels ==> fresh(m) && !m.modelTrained && m.regularization == regularization
        invariant forall m :: m in binaryModels ==> BaseModel(m, numberOfFeatures, 2)
        invariant DistinctModels(binaryModels)
      {
        var m := new TreeClassifier(numberOfFeatures, 2, regularization, rule);
        binaryModels := binaryModels + [m];
      }
    }

    /** `train`: the input checks, then every pair model trains on the
        samples of its two classes, relabelled 0 and 1. */
    method Train(data: Matrix, trainLabels: Labels) returns (r: Result<()>, ghost subsets: seq<seq<int>>)
      modifies this, set m | m in binaryModels, set m | m in binaryModels :: m.tree
      requires Valid() && Rectangular(data)
      ensures Valid() && binaryModels == old(binaryModels)
      ensures r.Failure? <==> Rejected(data, trainLabels, numberOfFeatures, numberOfClasses)
      ensures r.Failure? ==> modelTrained == old(modelTrained)
      ensures r.Success? ==> modelTrained && forall m :: m in binaryModels ==> m.modelTrained
      ensures r.Success? ==> |subsets| == |binaryModels|
      ensures r.Success? ==> forall p :: 0 <= p < |subsets| ==>
                PairSubset(trainLabels.labelData, numberOfClasses, Pairs(numberOfClasses)[p], subsets[p])
      ensures r.Success? ==> forall p :: 0 <= p < |subsets| ==>
                PairGrown(binaryModels[p], old(ModelTables(binaryModels))[p], trainLabels.labelData,
                          Pairs(numberOfClasses)[p].0, Pairs(numberOfClasses)[p].1)
    {
      subsets := [];
      var checked := CheckClassifierInput(data, trainLabels, numberOfFeatures, numberOfClasses);
      if checked.Failure? {
        return Failure(checked.error), subsets;
      }
      var labelData := trainLabels.labelData;
      var n := |labelData|;
      for labelIndex := 0 to n
        invariant forall d :: 0 <= d < labelIndex ==> Integral(labelData[d])
      {
        if !Integral(labelData[labelIndex]) {
          return Failure("a label is not a class number"), subsets;
        }
      }
      subsets := TrainPairs(data, labelData);
      modelTrained := true;
      r := Success(());
    }

    /** The pair loop of `train`: every pair model trains on the subset of
        its two classes. */
    method TrainPairs(data: Matrix, labels: seq<real>) returns (ghost subsets: seq<seq<int>>)
      modifies set m | m in binaryModels, set m | m in binaryModels :: m.tree
      requires Valid() && Rectangular(data) && data.cols == numberOfFeatures && |labels| == |data.rows|
      requires Represented(labels, numberOfClasses) && forall d :: 0 <= d < |labels| ==> Integral(labels[d])
      ensures Valid()
      ensures forall m :: m in binaryModels ==> m.modelTrained
      ensures |subsets| == |binaryModels|
      ensures forall p :: 0 <= p < |subsets| ==> PairSubset(labels, numberOfClasses, Pairs(numberOfClasses)[p], subsets[p])
      ensures forall p :: 0 <= p < |subsets| ==>
                PairGrown(binaryModels[p], old(ModelTables(binaryModels))[p], labels,
                          Pairs(numberOfClasses)[p].0, Pairs(numberOfClasses)[p].1)
    {
      var pairs := Pairs(numberOfClasses);
      forall p | 0 <= p < |pairs|
        ensures 0 <= pairs[p].0 < pairs[p].1 && HasClass(labels, pairs[p].0) && HasClass(labels, pairs[p].1)
      {
        assert pairs[p] in pairs;
      }
      TrainEach(binaryModels, pairs, data, labels, numberOfFeatures);
      subsets := PairSubsets(labels, pairs);
      PairSubsetsSized(labels, numberOfClasses);
    }

    /** The results of the first `n` pair models for `x`, in order, or the
        first error. */
    function Results(x: seq<real>, n: nat): (r: Result<seq<real>>)
      reads this, set m | m in binaryModels, set m | m in binaryModels :: m.tree
      requires n <= |binaryModels|
      ensures r.Success? ==> |r.value| == n
    {
      if n == 0 then Success([])
      else
        match Results(x, n - 1)
        case Failure(e) => Failure(e)
        case Success(front) =>
          assert binaryModels[n - 1] in binaryModels;
          match binaryModels[n - 1].Label(x)
          case Failure(e) => Failure(e)
          case Success(v) => Success(front + [v])
    }

    /** One more pair model: its result extends the results, or its error
        ends them. */
    lemma ResultsStep(x: seq<real>, n: nat, front: seq<real>)
      requires n < |binaryModels| && Results(x, n) == Success(front)
      ensures binaryModels[n].Label(x).Failure? ==> Results(x, n + 1) == Failure(binaryModels[n].Label(x).error)
      ensures binaryModels[n].Label(x).Success? ==> Results(x, n + 1) == Success(front + [binaryModels[n].Label(x).value])
    {
    }

    lemma {:induction false} ResultsPrefixFailure(x: seq<real>, n: nat)
      requires n <= |binaryModels| && Results(x, n).Failure?
      ensures Results(x, |binaryModels|) == Results(x, n)
      decreases |binaryModels| - n
    {
      if n < |binaryModels| {
        ResultsPrefixFailure(x, n + 1);
      }
    }

    /** What `predict` writes for one instance: the smallest class with
        the most pair votes, or the first error of a pair model. */
    function Label(x: seq<real>): (r: Result<real>)
      reads this, set m | m in binaryModels, set m | m in binaryModels :: m.tree
      requires Valid()
    {
      PairsShape(numberOfClasses);
      match Results(x, |binaryModels|)
      case Failure(e) => Failure(e)
      case Success(results) => Success(FirstMax(Tally(Pairs(numberOfClasses), results, numberOfClasses)) as real)
    }

    /** The pair models' results for `x`, in pair order, or the first
        error. */
    method CollectResults(x: seq<real>) returns (r: Result<seq<real>>)
      requires Valid() && |x| == numberOfFeatures
      ensures r == Results(x, |binaryModels|)
    {
      var results: seq<real> := [];
      for modelCount := 0 to |binaryModels|
        invariant Results(x, modelCount) == Success(results)
      {
        var next := AddResult(x, modelCount, results);
        if next.Failure? {
          ResultsPrefixFailure(x, modelCount + 1);
          return next;
        }
        results := next.value;
      }
      r := Success(results);
    }

    /** One pass of the loop of `predictOne`: the result of pair model `n`
        added to the results so far, or its error. */
    method AddResult(x: seq<real>, n: nat, results: seq<real>) returns (r: Result<seq<real>>)
      requires Valid() && |x| == numberOfFeatures && n < |binaryModels|
      requires Results(x, n) == Success(results)
      ensures r == Results(x, n + 1)
    {
      var model := binaryModels[n];
      assert model in binaryModels;
      var result := model.PredictOne(x);
      ResultsStep(x, n, results);
      if result.Failure? {
        return Failure(result.error);
      }
      r := Success(results + [result.value]);
    }

    /** The body of the loop of `predict` for one instance: each pair model
        votes, then the smallest class with the most votes wins. */
    method PredictOne(x: seq<real>) returns (r: Result<real>)
      requires Valid() && |x| == numberOfFeatures
      ensures r == Label(x)
      ensures r.Success? && numberOfClasses > 0 ==> IsClassLabel(r.value, numberOfClasses)
    {
      var results := CollectResults(x);
      if results.Failure? {
        return Failure(results.error);
      }
      var votes := CountVotes(Pairs(numberOfClasses), results.value, numberOfClasses);
      var winner := FirstMax(votes);
      r := Success(winner as real);
    }

    /** The labels of the first `n` rows of `data`, or the first error. */
    function RowLabels(data: Matrix, n: nat): (r: Result<seq<real>>)
      reads this, set m | m in binaryModels, set m | m in binaryModels :: m.tree
      requires Valid() && n <= |data.rows|
      ensures r.Success? ==> |r.value| == n
    {
      if n == 0 then Success([])
      else
        match RowLabels(data, n - 1)
        case Failure(e) => Failure(e)
        case Success(front) =>
          match Label(data.rows[n - 1])
          case Failure(e) => Failure(e)
          case Success(v) => Success(front + [v])
    }

    /** One more row: its label extends the labels, or its error ends
        them. */
    lemma RowLabelsStep(data: Matrix, n: nat, front: seq<real>)
      requires Valid() && n < |data.rows| && RowLabels(data, n) == Success(front)
      ensures Label(data.rows[n]).Failure? ==> RowLabels(data, n + 1).Failure?
      ensures Label(data.rows[n]).Success? ==> RowLabels(data, n + 1) == Success(front + [Label(data.rows[n]).value])
    {
    }

    lemma {:induction false} RowLabelsPrefixFailure(data: Matrix, n: nat)
      requires Valid() && n <= |data.rows| && RowLabels(data, n).Failure?
      ensures RowLabels(data, |data.rows|).Failure?
      decreases |data.rows| - n
    {
      if n < |data.rows| {
        RowLabelsPrefixFailure(data, n + 1);
      }
    }

    /** `predict`: an error when the model is untrained or the column count
        differs, otherwise the label of every row. */
    method Predict(data: Matrix) returns (r: Result<Labels>)
      requires Valid() && Rectangular(data)
      ensures !modelTrained || data.cols != numberOfFeatures ==> r.Failure?
      ensures modelTrained && data.cols == numberOfFeatures ==>
                (r.Failure? <==> RowLabels(data, |data.rows|).Failure?)
      ensures r.Success? ==> r.value == Labels(Classification, RowLabels(data, |data.rows|).value)
    {
      if !modelTrained {
        return Failure("model has not been trained yet");
      }
      if data.cols != numberOfFeatures {
        return Failure("invalid input data: wrong number of features");
      }
      var labelData := LabelRows(data);
      if labelData.Failure? {
        return Failure(labelData.error);
      }
      r := Success(Labels(Classification, labelData.value));
    }

    /** The prediction loop of `predict`: the label of every row in order,
        or the first error. */
    method LabelRows(data: Matrix) returns (r: Result<seq<real>>)
      requires Valid() && Rectangular(data) && data.cols == numberOfFeatures
      ensures r.Failure? <==> RowLabels(data, |data.rows|).Failure?
      ensures r.Success? ==> r == RowLabels(data, |data.rows|)
    {
      var labelData: seq<real> := [];
      for testIndex := 0 to |data.rows|
        invariant RowLabels(data, testIndex) == Success(labelData)
      {
        var predicted := PredictOne(data.rows[testIndex]);
        RowLabelsStep(data, testIndex, labelData);
        if predicted.Failure? {
          RowLabelsPrefixFailure(data, testIndex + 1);
          return Failure(predicted.error);
        }
        labelData := labelData + [predicted.value];
      }
      r := Success(labelData);
    }

    /** `clear`: every binary model is cleared, and so is the classifier. */
    method Clear()
      modifies this, set m | m in binaryModels, set m | m in binaryModels :: m.tree
      requires Valid()
      ensures Valid() && binaryModels == old(binaryModels) && !modelTrained
      ensures forall m :: m in binaryModels ==> !m.modelTrained && m.tree.nodes == [] && m.tree.leafNodeToLabel == []
    {
      for modelId := 0 to |binaryModels|
        invariant binaryModels == old(binaryModels) && Valid()
        invariant forall i :: 0 <= i < modelId ==>
                    !binaryModels[i].modelTrained && binaryModels[i].tree.nodes == [] && binaryModels[i].tree.leafNodeToLabel == []
      {
        binaryModels[modelId].Clear();
      }
      modelTrained := false;
    }
  }
}
