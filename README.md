# CPPLearn decision-tree engine in Dafny

This project models the decision-tree part of CPPLearn (the Lib15x C++
machine-learning library) and proves properties of the model:

- the split criteria: the shared sample-count bookkeeping, the
  classification criterion with gini, bernoulli (product) and entropy
  impurities, the regression criterion with running sums and variances, and
  the older standalone criterion;
- the splitter: the feature permutation, the constant-feature prefix, the
  stable lock-step sort of a window, the scan for the best boundary and the
  in-place two-cursor partition;
- the trees: the append-only node vector, parent-to-child wiring, the
  leaf-payload table and prediction by walking from the head node;
- the depth-first builder with its explicit stack of records;
- the models built on the engine: the tree classifier and regressor, the
  random forest, the bagging classifier, gradient boosting and the
  one-vs-one multiclass classifier, with their shared base-class checks,
  label placement and zero-one loss;
- cross-validation: plain and stratified k-fold splitting and the
  train/test assembly of each validation round;
- the min-max scaler;
- the string and array helpers `trim`, `tokenize` and `sortTwoArray`, and
  the line-level part of the libsvm conversion.

Every module is in its own file. `outcome.dfy` holds `Option` and `Result`:
each exception of the library becomes a `Failure` with its message, and each
`assert` becomes a precondition. Labels, data matrices and the numeric
limits are in `definitions.dfy`. The classes of the library (criteria,
splitter, trees, builder, models, scaler) are Dafny classes whose methods
update their fields in place. Each method is proved against a specification
function of the inputs and the old state, and lemmas prove what the library
promises about those functions.

Floating-point numbers are exact `real`s and C++ `long`s are unbounded
`int`s. The random choices of the library (`rand()` in the splitter and in
the bootstrap draws, `std::shuffle` in k-fold splitting) are parameters or
nondeterministic choices within the range the code uses.

## Model

| member | source | states |
|---|---|---|
| Records.DefaultSplit | src/include/internal/_TreeUtilities.hpp:53-57 | a default split record has feature and split index -1, threshold -max (negative), improvement 0.0 and both child impurities +max |
| Definitions.LRound | src/include/internal/_BaseClassifier.hpp:40 | `std::lround`: the nearest integer, halves rounded away from zero |
| Definitions.LRoundNonNegative | src/include/internal/_BaseClassifier.hpp:40 | a label rounds to a non-negative integer exactly when it exceeds -0.5, and the placeholder -1.0 rounds to -1 |
| Definitions.Filled | src/include/internal/_BaseClassifier.hpp:141-142 | a vector resized to n and filled with v has length n and every entry v |
| Definitions.MaxCoeff | src/include/preprocessing/MinMaxScaler.hpp:34 | the largest coefficient of a non-empty vector: no entry exceeds it and some entry equals it |
| Definitions.MinCoeff | src/include/preprocessing/MinMaxScaler.hpp:35 | the smallest coefficient of a non-empty vector: no entry is below it and some entry equals it |
| BaseModels.DefaultRegularization | src/include/models/TreeClassifier.hpp:26-29 | the default parameters (1, 1, max long, -1) pass the parameter check unchanged |
| BaseModels.Validate | src/include/models/TreeClassifier.hpp:36-48 | the parameter check fails exactly when minSamplesInALeaf, minSamplesInANode or maxDepth is below 1, or maxNumberOfLeafNodes is 0 or below -1; on success the parameters are returned as given |
| BaseModels.BuilderChoice | src/include/models/TreeClassifier.hpp:58-86 | for valid parameters the depth-first builder is chosen exactly when the leaf budget is -1, and best-first exactly when it is at least 1 |
| BaseModels.Placed | src/include/internal/_BaseClassifier.hpp:36-43 | the zero-one loss over positions where both labels round to a non-negative integer never exceeds the plain mismatch count |
| BaseModels.ClassifierLoss | src/include/internal/_BaseClassifier.hpp:17-44 | the loss fails exactly when either label set is not of Classification type or their sizes differ; otherwise it is the number of counted mismatches |
| BaseModels.PlacedWithoutPlaceholders | src/include/internal/_BaseClassifier.hpp:38-41 | without placeholders (every label above -0.5) the loss is the plain mismatch count |
| BaseModels.PlacedZero | src/include/internal/_BaseClassifier.hpp:38-41 | the loss is zero exactly when every counted position agrees, and it is symmetric in its two arguments |
| BaseModels.PlaceholderIgnored | src/include/internal/_BaseClassifier.hpp:38-41 | overwriting a prediction with the placeholder -1 removes exactly the mismatch that position contributed |
| BaseModels.CheckClassifierInput | src/include/internal/_BaseClassifier.hpp:50-109 | the input check of `train` fails exactly on a non-Classification label type, a wrong column count, a row/label count mismatch, a label outside [0, K) or a class with no sample; otherwise it forwards the index list 0..n-1, every index labelled with a class below K |
| BaseModels.NoneCounted | src/include/internal/_BaseClassifier.hpp:90-96 | a class counted zero times among all indices has no sample |
| BaseModels.SomeCounted | src/include/internal/_BaseClassifier.hpp:90-96 | a class counted at least once among all indices has a sample |
| BaseModels.CheckRegressorInput | src/include/internal/_BaseRegressor.hpp:23-51 | the input check of `train` fails exactly on a non-Regression label type, a wrong column count or a row/label count mismatch; otherwise it forwards the index list 0..n-1 |
| BaseModels.Scattered | src/include/internal/_BaseClassifier.hpp:144-148 | writing predictions at the listed positions keeps the length of the label vector |
| BaseModels.ScatteredAt | src/include/internal/_BaseClassifier.hpp:141-148 | after `predict(data, idx)` a position not listed keeps its fill value, and a listed position holds the prediction of its last listing |
| BaseModels.Unpredicted | src/include/internal/_BaseRegressor.hpp:82-83 | the label vector before prediction has one entry per row, each -1 |
| Trees.DefaultNode | src/include/internal/_BaseTree.hpp:17-18 | a default node has both children and its feature -1, threshold -max and is not a leaf |
| Trees.SplitNode | src/include/internal/_BaseTree.hpp:20-22 | a new node stores its feature and threshold, has both children -1 and is not a leaf |
| Trees.Reach | src/include/internal/_ClassificationTree.hpp:31-36 | the walk from a node, going left iff `x[f] < threshold`, ends, when it ends, at a leaf node at or after its start |
| Trees.Lookup | src/include/internal/_ClassificationTree.hpp:38-45 | the payload lookup finds an entry exactly when some entry has the key, and then returns the payload of the first such entry |
| Trees.LookupAppend | src/include/internal/_ClassificationTree.hpp:23 | appending an entry to the leaf table changes a lookup only for a key that had no entry before |
| Trees.Tree.constructor | src/include/internal/_BaseTree.hpp:26-28 | a new tree has depth 0, head -1, no nodes, node count 0 and an empty leaf table |
| Trees.Tree.ResetAsWritten | src/include/internal/_BaseTree.hpp:30-36 | `reset` as written empties the nodes and the leaf table and sets head -1 and depth 0 but keeps the node count, which breaks the tree invariant once any node was added |
| Trees.Tree.Reset | src/include/internal/_BaseTree.hpp:30-36 | the corrected `reset` also sets the node count to 0 and keeps the tree invariant |
| Trees.Tree.AddNode | src/include/internal/_BaseTree.hpp:38-53 | `addNode` appends exactly one split node, increments the node count and returns count - 1; a negative parent makes the new node the head, otherwise only the parent's left or right child changes; the returned index is the new node's position when the count matched the vector length |
| Trees.Tree.AddLeaf | src/include/internal/_ClassificationTree.hpp:19-25 | `addLeaf` requires an admissible payload, appends (node, payload) to the leaf table and marks only that node a leaf |
| Trees.Tree.Prediction | src/include/internal/_ClassificationTree.hpp:27-46 | a successful prediction is the payload of the first table entry of the leaf the walk reaches |
| Trees.Tree.PredictOne | src/include/internal/_RegressionTree.hpp:25-44 | the loop of `predictOne` returns exactly the prediction function, and fails when the reached leaf has no payload |
| Trees.WithChild | src/include/internal/_BaseTree.hpp:50-51 | wiring a child changes only the left or only the right child index |
| Trees.NewLegacyTreeAsWritten | src/include/internal/_Tree.hpp:25-27 | the older tree as constructed admits only an empty count vector, because its class count is 0 |
| Trees.NewLegacyTree | src/include/internal/_Tree.hpp:25-27 | the corrected older tree admits exactly the count vectors of its class count |
| Trees.LegacyLeafRefused | src/include/internal/_Tree.hpp:63-69 | a count vector of one or more classes is refused by the tree as written and accepted by the corrected one |
| Trees.StaleIndexAfterReset | src/include/internal/_BaseTree.hpp:30-52 | with `reset` as written, a tree that held one node returns index 1 for the node stored at position 0 |
| Trees.FreshIndexAfterReset | src/include/internal/_BaseTree.hpp:30-52 | with the corrected `reset`, the same sequence returns index 0 for the node at position 0 |
| Counting.Range | src/include/internal/_BaseClassifier.hpp:106-107 | the index list filled by `std::iota` from `start` has `end - start` entries, entry i being `start + i` |
| Counting.Zeros | src/include/internal/_ClassificationCriterion.hpp:58-59 | a count vector constructed with n zeros has length n and every entry 0 |
| Samples.ClassOfTruncates | src/include/internal/_ClassificationCriterion.hpp:70 | the `static_cast<long>` of a label truncates toward zero |
| Samples.ClassCounts | src/include/internal/_ClassificationCriterion.hpp:67-72 | the count vector of a window has one entry per class |
| Samples.ClassCountsStep | src/include/internal/_ClassificationCriterion.hpp:68-72 | counting one more sample of the window increments exactly the entry of its class |
| Samples.ClassCountsCount | src/include/internal/_ClassificationCriterion.hpp:67-72 | entry k of the count vector is the number of window samples whose label truncates to k |
| Samples.ClassCountsPermutation | src/include/internal/_Splitter.hpp:104-117 | reordering a window does not change its count vector |
| Samples.ClassCountsAppend | src/include/internal/_ClassificationCriterion.hpp:86-91 | the counts of a window split at a boundary add up, class by class, to the counts of the whole window |
| Samples.ClassCountsSum | src/include/internal/_ClassificationCriterion.hpp:67-72 | when every label is a class below K, the counts add up to the window size |
| Samples.ClassCountsNonNegative | src/include/internal/_ClassificationCriterion.hpp:67-72 | no count is negative |
| Samples.Minus | src/include/internal/_ClassificationCriterion.hpp:89-90 | the right counts are the total counts less the left counts, entry by entry |
| Samples.SplitUnique | src/include/internal/_ClassificationCriterion.hpp:86-91 | the left counts determine the right counts |
| Impurity.SquaredShares | src/include/internal/_ClassificationCriterion.hpp:27-30 | the sum of the squared class shares is non-negative |
| Impurity.Gini | src/include/internal/_ClassificationCriterion.hpp:21-33 | the gini impurity is at most 1 |
| Impurity.ComputeGini | src/include/internal/_ClassificationCriterion.hpp:21-33 | the loop of `gini` returns 1 minus the sum of the squared shares of the classes |
| Impurity.ComputeBernoulli | src/include/internal/_ClassificationCriterion.hpp:9-19 | the loop of `bernoulli` returns the product of the class shares |
| Impurity.ComputeEntropy | src/include/internal/_ClassificationCriterion.hpp:35-48 | the loop of `entropy` returns minus the sum of share times log share over the classes that have samples |
| Impurity.ComputeRule | src/include/internal/_ClassificationCriterion.hpp:94-106 | the criterion's impurity rule, applied to a count vector, is the gini, bernoulli or entropy value |
| Impurity.GiniPure | src/include/internal/_ClassificationCriterion.hpp:21-33 | a count vector with a single non-zero class has gini impurity 0 |
| Impurity.GiniBounds | src/include/internal/_ClassificationCriterion.hpp:21-33 | the gini impurity of non-negative counts lies in [0, 1] |
| Impurity.BernoulliEmptyClass | src/include/internal/_ClassificationCriterion.hpp:15-16 | a class without samples makes the bernoulli impurity 0 |
| Impurity.BernoulliBounds | src/include/internal/_ClassificationCriterion.hpp:9-19 | the bernoulli impurity of non-negative counts lies in [0, 1] |
| Impurity.EntropyTermsSkipEmpty | src/include/internal/_ClassificationCriterion.hpp:41-45 | inserting an empty class anywhere leaves the entropy unchanged |
| Impurity.EntropyTermsZero | src/include/internal/_ClassificationCriterion.hpp:41-45 | classes that are all empty contribute nothing to the entropy |
| Impurity.EntropyPure | src/include/internal/_ClassificationCriterion.hpp:35-48 | a count vector with a single non-zero class has entropy 0, for a logarithm with log 1 = 0 |
| Impurity.LegacyNodeIsScaledBernoulli | src/include/internal/_Criterion.hpp:62-71 | the older node impurity is the bernoulli impurity of the totals times the node size |
| Impurity.LegacyChildEmptyClass | src/include/internal/_Criterion.hpp:73-85 | a class without samples on a side makes the older child impurity of that side 0 |
| Impurity.SumSplit | src/include/internal/_ClassificationCriterion.hpp:86-91 | counts split into left and right add up to the total count |
| Impurity.ImproveUnchangedImpurity | src/include/internal/_BaseCriterion.hpp:45-65 | when both children have the node's impurity and the sides fill the node, the improvement is 0 |
| Criterion.ClassificationCriterion.constructor | src/include/internal/_ClassificationCriterion.hpp:56-59 | a new criterion has no window (start, end and cursor -1), counts 0 and three zero count vectors of the class count |
| Criterion.ClassificationCriterion.Init | src/include/internal/_BaseCriterion.hpp:15-25 | `init` stores the window, sets the node count to end - start, counts the window's classes into the totals (adding up to the node count) and then resets: cursor at start, left 0, right the node count, left counts zero, right counts the totals |
| Criterion.ClassificationCriterion.InitCounts | src/include/internal/_ClassificationCriterion.hpp:61-73 | `_init` zeroes the totals and then counts every window sample's class |
| Criterion.ClassificationCriterion.Reset | src/include/internal/_BaseCriterion.hpp:27-34 | `reset` sets the cursor to start, left to 0, right to the node count, the right counts to the totals and the left counts to zero, and changes nothing else |
| Criterion.ClassificationCriterion.ResetCounts | src/include/internal/_ClassificationCriterion.hpp:75-81 | `_reset` copies the totals into the right counts and zeroes the left counts |
| Criterion.ClassificationCriterion.Update | src/include/internal/_BaseCriterion.hpp:36-43 | `update(p)` moves the cursor to p, adds p - cursor to left and takes it from right, so left + right stays the node count; the left counts are then those of [start, p) and the right counts those of [p, end) |
| Criterion.ClassificationCriterion.UpdateCounts | src/include/internal/_ClassificationCriterion.hpp:83-92 | `_update` moves the class of every sample in [cursor, p) from the right counts to the left counts, keeping left + right = total class by class |
| Criterion.ClassificationCriterion.RightCounts | src/include/internal/_ClassificationCriterion.hpp:83-92 | in a valid state the right counts are those of [cursor, end), no count is negative, and the counts add up to the left and right sample counts |
| Criterion.ClassificationCriterion.NodeImpurity | src/include/internal/_ClassificationCriterion.hpp:94-98 | the node impurity of non-negative totals lies in [0, 1] for gini and bernoulli, and is 0 under gini for a pure node |
| Criterion.ClassificationCriterion.ChildrenImpurity | src/include/internal/_ClassificationCriterion.hpp:100-106 | both child impurities lie in [0, 1] for gini and bernoulli |
| Criterion.ClassificationCriterion.ImpurityImprove | src/include/internal/_BaseCriterion.hpp:45-65 | the improvement is (n/N)(I - (r/n) impR - (l/n) impL), with N the number of labels and the children's impurities by the rule |
| Criterion.ClassificationCriterion.NodeValue | src/include/internal/_ClassificationCriterion.hpp:108-112 | the node value is the count vector of the window, of the class count in length and adding up to the window size |
| Criterion.RuleFacts | src/include/internal/_ClassificationCriterion.hpp:9-48 | each rule's value bounds: gini and bernoulli in [0, 1] for non-negative counts, gini 0 on a pure vector |
| LegacyCriteria.LegacyCriterion.constructor | src/include/internal/_Criterion.hpp:10-14 | a new older criterion has no labels and no window, counts 0 and three zero count vectors |
| LegacyCriteria.LegacyCriterion.Init | src/include/internal/_Criterion.hpp:16-33 | `init` stores the labels and the window, sets the node count, zeroes and recounts the totals and then resets |
| LegacyCriteria.LegacyCriterion.InitCounts | src/include/internal/_Criterion.hpp:25-31 | the totals are the class counts of the window |
| LegacyCriteria.LegacyCriterion.Reset | src/include/internal/_Criterion.hpp:35-46 | `reset` sets counts (0, n), the cursor to start, the right counts to the totals and the left counts to zero |
| LegacyCriteria.LegacyCriterion.Update | src/include/internal/_Criterion.hpp:48-60 | `update(p)` moves the labels of [cursor, p) from right to left, keeps left + right = n and moves the cursor to p |
| LegacyCriteria.LegacyCriterion.UpdateCounts | src/include/internal/_Criterion.hpp:51-56 | the class counts move from right to left for every sample in [cursor, p) |
| LegacyCriteria.LegacyCriterion.RightCounts | src/include/internal/_Criterion.hpp:48-60 | in a valid state the right counts are those of [cursor, end) and the counts add up to the side sizes |
| LegacyCriteria.LegacyCriterion.NodeImpurity | src/include/internal/_Criterion.hpp:62-71 | the node impurity is the product of the class shares times n, which is the bernoulli impurity times n, and 0 when some class is empty |
| LegacyCriteria.LegacyCriterion.ChildrenImpurity | src/include/internal/_Criterion.hpp:73-85 | each side's impurity is the product of its class counts over its size, and 0 when some class on that side is empty |
| LegacyCriteria.LegacyCriterion.ImpurityImprove | src/include/internal/_Criterion.hpp:93-111 | the improvement uses the same weighted formula as the base criterion, over the older child impurities |
| LegacyCriteria.LegacyCriterion.NodeLabelsCount | src/include/internal/_Criterion.hpp:87-91 | the node label counts are the count vector of the window, adding up to its size |
| RegressionCriteria.SumsStep | src/include/internal/_RegressionCriterion.hpp:25-30 | one more sample adds its label to the running sum and its square to the square sum |
| RegressionCriteria.SumsAppend | src/include/internal/_RegressionCriterion.hpp:52-60 | the sums of a window split in two are the sums of the parts |
| RegressionCriteria.SplitSums | src/include/internal/_RegressionCriterion.hpp:56-59 | when the left sums are those of the prefix and left + right give the totals, the right sums are those of the suffix |
| RegressionCriteria.SquareSumDominates | src/include/internal/_RegressionCriterion.hpp:72-78 | n times the square sum is at least the squared sum (Cauchy-Schwarz), and the square sum is non-negative |
| RegressionCriteria.VarianceNonNegative | src/include/internal/_RegressionCriterion.hpp:72-78 | the node impurity sqSum/n - mean^2 is never negative in exact arithmetic |
| RegressionCriteria.SpreadNonNegative | src/include/internal/_RegressionCriterion.hpp:64-69 | q/n - (s/n)^2 is non-negative whenever n q >= s^2 |
| RegressionCriteria.ConstantWindow | src/include/internal/_RegressionCriterion.hpp:72-91 | a window whose labels are all c has mean c and variance 0 |
| RegressionCriteria.ConstantSums | src/include/internal/_RegressionCriterion.hpp:25-30 | a window of n labels equal to c has sum n c and square sum n c^2 |
| RegressionCriteria.CarriedSumSkewsMean | src/include/internal/_RegressionCriterion.hpp:25-32 | a non-zero sum carried over from an earlier window makes the computed mean differ from the window's mean |
| RegressionCriteria.CarriedSumExample | src/include/internal/_RegressionCriterion.hpp:25-32 | concretely: labels [1, 2], after a window holding sample 0, the window holding only sample 1 gets mean 3 instead of 2 |
| RegressionCriteria.ResetSides | src/include/internal/_RegressionCriterion.hpp:35-47 | after `_reset` the left side holds the sums of the empty prefix and the right side those of the whole window |
| RegressionCriteria.SideMomentsFromSums | src/include/internal/_RegressionCriterion.hpp:62-69 | the means and variances recomputed from the side sums are the mean and variance of each side, and both variances are non-negative |
| RegressionCriteria.RegressionCriterion.Window | src/include/internal/_RegressionCriterion.hpp:22-26 | the window of a valid criterion is the slice [start, end) of the sample indices |
| RegressionCriteria.RegressionCriterion.constructor | src/include/internal/_RegressionCriterion.hpp:14-17 | a new criterion has no window, zero counts and every sum, mean and variance 0 |
| RegressionCriteria.RegressionCriterion.Init | src/include/internal/_RegressionCriterion.hpp:19-47 | the corrected `init` sets the totals to the window's sum and square sum and the mean to their quotient, then resets: the right side holds the totals with the window's variance, which is non-negative |
| RegressionCriteria.RegressionCriterion.InitAsWritten | src/include/internal/_RegressionCriterion.hpp:19-33 | `_init` as written adds the window's sums to whatever the totals held before; the state is valid only when they held 0 |
| RegressionCriteria.RegressionCriterion.InitSums | src/include/internal/_RegressionCriterion.hpp:25-32 | the loop of `_init` adds the window's label sum and square sum to the totals and sets the mean total to sum / n |
| RegressionCriteria.RegressionCriterion.Reset | src/include/internal/_RegressionCriterion.hpp:35-47 | `reset` puts the cursor at start, counts (0, n), the left side at zero and the right side at the totals with variance sqSum/n - mean^2 |
| RegressionCriteria.RegressionCriterion.Update | src/include/internal/_RegressionCriterion.hpp:49-70 | `update(p)` moves the cursor to p and p - cursor samples from right to left; the side sums, means and variances are then those of [start, p) and [p, end), and both variances are non-negative |
| RegressionCriteria.RegressionCriterion.VariancesNonNegative | src/include/internal/_RegressionCriterion.hpp:64-78 | the node variance and both side variances are non-negative |
| RegressionCriteria.RegressionCriterion.NodeImpurity | src/include/internal/_RegressionCriterion.hpp:72-78 | the node impurity is the variance of the window's labels, and non-negative |
| RegressionCriteria.RegressionCriterion.ChildrenImpurity | src/include/internal/_RegressionCriterion.hpp:80-85 | the child impurities are the variances of the labels left and right of the cursor, both non-negative |
| RegressionCriteria.RegressionCriterion.ImpurityImprove | src/include/internal/_BaseCriterion.hpp:45-65 | the improvement is the weighted base formula over the two side variances |
| RegressionCriteria.RegressionCriterion.NodeValue | src/include/internal/_RegressionCriterion.hpp:87-91 | the node value is the mean label of the window |
| Sorting.InsertAt | src/include/core/Utilities.hpp:395-396 | the stable insertion point of a key lies within the order built so far |
| Sorting.InsertPosition | src/include/core/Utilities.hpp:395-396 | inserting an index into an order of positions gives an order one longer, still of valid positions |
| Sorting.OrderOf | src/include/core/Utilities.hpp:392-396 | the stable order of the first m keys lists m valid positions |
| Sorting.StableOrder | src/include/core/Utilities.hpp:392-396 | the order `std::stable_sort` leaves in `orderedIndices` has one valid position per key |
| Sorting.Gather | src/include/core/Utilities.hpp:401-404 | gathering a range through an order gives one element per order entry |
| Sorting.GatherIndex | src/include/core/Utilities.hpp:401-404 | entry k of the gathered range is the element at position `order[k]` |
| Sorting.InsertAtAbove | src/include/core/Utilities.hpp:395-396 | every key after the insertion point is strictly greater than the inserted key |
| Sorting.InsertAtBelow | src/include/core/Utilities.hpp:395-396 | in a sorted order every key before the insertion point is at most the inserted key |
| Sorting.InsertIndex | src/include/core/Utilities.hpp:395-396 | insertion puts the index at the insertion point and shifts the rest by one |
| Sorting.InsertMultiset | src/include/core/Utilities.hpp:395-396 | insertion adds exactly the inserted index |
| Sorting.InsertSorted | src/include/core/Utilities.hpp:395-396 | insertion keeps an order sorted by key |
| Sorting.InsertStable | src/include/core/Utilities.hpp:395-396 | inserting an index larger than all before keeps equal keys in index order |
| Sorting.OrderBelow | src/include/core/Utilities.hpp:393-396 | the stable order of the first m keys lists only positions below m |
| Sorting.OrderDistinct | src/include/core/Utilities.hpp:393-396 | the stable order lists no position twice |
| Sorting.OrderSortedStable | src/include/core/Utilities.hpp:395-396 | the stable order is sorted by key, and equal keys keep their original order |
| Sorting.StableOrderCorrect | src/include/core/Utilities.hpp:392-396 | the order of all keys is a permutation of the positions, sorted by key and stable on ties |
| Sorting.GatherAppend | src/include/core/Utilities.hpp:401-404 | gathering through two orders laid end to end gives the two gathered ranges end to end |
| Sorting.GatherInsert | src/include/core/Utilities.hpp:401-404 | gathering through an order with one more index adds exactly that element |
| Sorting.GatherOrder | src/include/core/Utilities.hpp:401-404 | gathering through the stable order of the first m keys permutes the first m elements |
| Sorting.GatherStableOrder | src/include/core/Utilities.hpp:401-406 | the second range, gathered through the stable order, is a permutation of itself |
| Sorting.GatherAscending | src/include/core/Utilities.hpp:401-405 | the first range, gathered through its stable order, is ascending |
| Sorting.SortTwoArray | src/include/core/Utilities.hpp:384-407 | `sortTwoArray` leaves the first range gathered through its stable order and the second range, from its offset, gathered through the same order, with the rest of the second array unchanged |
| Sorting.GatherLoop | src/include/core/Utilities.hpp:401-404 | the copy loops gather a range through an order |
| Sorting.SortTwoArrayMeaning | src/include/core/Utilities.hpp:384-407 | after `sortTwoArray` the first range is ascending, and both ranges are permutations of what they held |
| Utilities.TrimLeftAt | src/include/core/Utilities.hpp:28-36 | the first loop of `trim` stops at the first character that is neither space nor tab |
| Utilities.TrimRightAt | src/include/core/Utilities.hpp:43-51 | the second loop of `trim` stops after the last character that is neither space nor tab |
| Utilities.TrimSpan | src/include/core/Utilities.hpp:16-57 | `trim` returns a contiguous substring with only blanks before and after it, starting and ending with a non-blank, and empty exactly when the input is all spaces and tabs (the empty input included) |
| Utilities.TrimIdempotent | src/include/core/Utilities.hpp:16-57 | trimming twice is trimming once |
| Utilities.TrimLine | src/include/core/Utilities.hpp:16-57 | the cursor loops of `trim` compute the trimmed string |
| Utilities.Runs | src/include/core/Utilities.hpp:59-80 | a string starting with a non-delimiter has at least one token |
| Utilities.Styled | src/include/core/Utilities.hpp:70-73 | with `DontTrim` the tokens are the runs themselves, with `Trim` each run trimmed, one token per run |
| Utilities.FirstNotOf | src/include/core/Utilities.hpp:64-75 | `find_first_not_of` from i returns the first position at or after i that is not a delimiter, or the length |
| Utilities.FirstOf | src/include/core/Utilities.hpp:66-77 | `find_first_of` from i returns the first position at or after i that is a delimiter, or the length |
| Utilities.RunsSkip | src/include/core/Utilities.hpp:74-75 | skipping delimiters does not change the remaining tokens |
| Utilities.RunsAt | src/include/core/Utilities.hpp:67-77 | at a non-delimiter the next token runs up to the next delimiter, and the rest follows |
| Utilities.RunsShape | src/include/core/Utilities.hpp:67-75 | every `DontTrim` token is non-empty and holds no delimiter |
| Utilities.RunsConcat | src/include/core/Utilities.hpp:59-80 | the tokens laid end to end are the input with its delimiters removed, in left-to-right order |
| Utilities.RunsNone | src/include/core/Utilities.hpp:59-80 | there are no tokens exactly when the input is empty or all delimiters |
| Utilities.Tokenize | src/include/core/Utilities.hpp:59-80 | the loop of `tokenize` returns the maximal runs of non-delimiters, each trimmed when asked |
| Utilities.ZeroRow | src/include/core/Utilities.hpp:199-202 | the padding is n zeros |
| Utilities.DenseStep | src/include/core/Utilities.hpp:195-206 | one sparse entry pads zeros up to its 1-based index and then appends its value |
| Utilities.DenseLength | src/include/core/Utilities.hpp:194-206 | with increasing indices the dense row ends at the last index and keeps what was there |
| Utilities.DenseValues | src/include/core/Utilities.hpp:194-206 | every sparse entry's value lands at position index - 1 of the dense row |
| Utilities.DenseZeros | src/include/core/Utilities.hpp:199-202 | every skipped position of the dense row is 0 |
| Utilities.DenseRow | src/include/core/Utilities.hpp:194-206 | the per-line loop builds the dense row of the sparse entries |
| Utilities.MaxLength | src/include/core/Utilities.hpp:208 | the feature count is the length of the longest dense row, and 0 without rows |
| Utilities.Padded | src/include/core/Utilities.hpp:180-208 | a row padded to the feature count keeps its values and ends in zeros |
| Utilities.RankOrder | src/include/core/Utilities.hpp:212-217 | the rank of a label among the distinct labels is below their number, and ranks preserve order and equality |
| Utilities.Remap | src/include/core/Utilities.hpp:212-218 | distinct raw labels are mapped to 0..K-1 in increasing order: the map preserves order and equality |
| Utilities.Mismatches | src/include/core/Utilities.hpp:351-357 | the number of differing positions is at most the length |
| Utilities.MismatchesZero | src/include/core/Utilities.hpp:351-357 | there are no mismatches exactly when the label vectors are equal, and the count is symmetric |
| Utilities.ZeroOneLoss | src/include/core/Utilities.hpp:331-358 | the loss fails exactly on a non-Classification type or a length mismatch; otherwise it is the number of differing positions |
| Splitting.SwapPermutes | src/include/internal/_Splitter.hpp:114-115 | a swap inside the window keeps the window a reordering of what it held and the rest untouched |
| Splitting.PermutedTrans | src/include/internal/_Splitter.hpp:57-117 | two reorderings of the window in a row are one reordering |
| Splitting.PermutedWhole | src/include/internal/_Splitter.hpp:57-117 | reordering the window keeps the multiset of the whole index vector |
| Splitting.ConstantPrefixMeans | src/include/internal/_Splitter.hpp:60-65 | every feature the call moved into the constant prefix is constant on the window |
| Splitting.FeatureSwap | src/include/internal/_Splitter.hpp:61-68 | a swap of two unexamined features keeps the feature permutation and the constant prefix; swapping a constant feature to the first unexamined slot grows the prefix by one |
| Splitting.SwapSides | src/include/internal/_Splitter.hpp:114-115 | the swap of the partition loop moves a value above the threshold to the right part |
| Splitting.PartitionCount | src/include/internal/_Splitter.hpp:104-117 | when the partition ends with m, the old window had exactly m - start samples at or below the threshold |
| Splitting.SidesCounted | src/include/internal/_BaseCriterion.hpp:36-43 | the class counts of the two sides of a boundary add up to the side sizes |
| Splitting.GainIs | src/include/internal/_Splitter.hpp:87-92 | the improvement computed after `update(p)` is the gain of boundary p of the window |
| Splitting.GainTable | src/include/internal/_Splitter.hpp:71-101 | the table of the gains of all boundaries of a window |
| Splitting.PermutedWindow | src/include/internal/_Splitter.hpp:57-58 | reordering the window keeps the labels valid and the window's class counts |
| Splitting.ThresholdCount | src/include/internal/_Splitter.hpp:97-110 | a threshold strictly between sorted values k-1 and k sends exactly the first k samples left under `<=`, so the strict test of prediction and the splitter agree on every training value |
| Splitting.ConstantFromSorted | src/include/internal/_Splitter.hpp:60 | a sorted buffer whose last value is within 1e-7 of its first shows a feature constant on the window |
| Splitting.SortedByFeature | src/include/internal/_Splitter.hpp:50-58 | sorting the buffer and the window together leaves the buffer ascending, the window a permutation, and each buffer value the feature value of the sample beside it |
| Splitting.NextBoundary | src/include/internal/_Splitter.hpp:71-80 | the inner loop advances the cursor to the next position whose value exceeds its predecessor by more than 1e-7, or to the end, skipping no boundary |
| Splitting.Splitter.constructor | src/include/internal/_Splitter.hpp:11-22 | a new splitter keeps its collaborators, numbers the features 0..F-1 and has no window |
| Splitting.Splitter.ResetToThisNode | src/include/internal/_Splitter.hpp:24-30 | `resetToThisNode` stores the window and initialises the criterion on it: cursor at start, totals the window's class counts |
| Splitting.Splitter.CalculateNodeImpurity | src/include/internal/_Splitter.hpp:123-126 | the node impurity is the criterion's rule applied to the window's class counts, in [0, 1] for gini and bernoulli |
| Splitting.Splitter.NodeInData | src/include/internal/_Splitter.hpp:52-54 | every sample of the window is a row of the data |
| Splitting.Splitter.SortByFeature | src/include/internal/_Splitter.hpp:50-58 | buffering and sorting by a feature leaves an ascending buffer of the window's feature values, the window a permutation of itself and the rest of the index vector unchanged |
| Splitting.Splitter.FillBuffer | src/include/internal/_Splitter.hpp:50-55 | the buffer holds the feature value of every sample of the window, in window order |
| Splitting.Splitter.TrySplit | src/include/internal/_Splitter.hpp:87-92 | `update(p)` then `impurityImprove` gives the gain of boundary p, with the left and right counts those of the window before and after p |
| Splitting.Splitter.BestSoFarMeans | src/include/internal/_Splitter.hpp:71-101 | the scan invariant means that no candidate boundary seen so far beats the best improvement |
| Splitting.Splitter.BestSoFarRaise | src/include/internal/_Splitter.hpp:94 | raising the best improvement keeps the scan invariant |
| Splitting.Splitter.ScanStep | src/include/internal/_Splitter.hpp:71-101 | skipping non-boundaries and a candidate no better than the best keeps the scan invariant |
| Splitting.Splitter.RecordStep | src/include/internal/_Splitter.hpp:94-99 | a candidate with a strictly greater improvement is recorded with its feature, split index, midpoint threshold and child impurities |
| Splitting.Splitter.ScanAdvance | src/include/internal/_Splitter.hpp:71-101 | the scan invariant holds after the cursor advances past a candidate that was kept or beaten |
| Splitting.Splitter.Evaluate | src/include/internal/_Splitter.hpp:87-100 | at a candidate the best split changes only on a strictly greater improvement, and then records that candidate; the best improvement afterwards is at least the candidate's gain |
| Splitting.Splitter.Consider | src/include/internal/_Splitter.hpp:81-100 | one candidate boundary advances the scan invariant to it |
| Splitting.Splitter.ScanNext | src/include/internal/_Splitter.hpp:71-100 | one pass of the scan loop keeps its invariant and strictly advances the cursor |
| Splitting.Splitter.ScanFeature | src/include/internal/_Splitter.hpp:70-101 | the scan of a sorted feature either keeps the best split or replaces it by a recorded candidate with a strictly greater improvement, and no candidate of the feature beats the result |
| Splitting.Splitter.Partition | src/include/internal/_Splitter.hpp:104-117 | the two-cursor loop leaves the window a permutation of itself, the rest unchanged, the samples before the split index at or below the threshold and the others above it |
| Splitting.Splitter.SortWindow | src/include/internal/_Splitter.hpp:50-58 | sorting the window by a drawn feature keeps the search invariant and yields an ascending buffer of its values |
| Splitting.Splitter.MoveToConstants | src/include/internal/_Splitter.hpp:60-65 | a constant drawn feature is swapped to the end of the constant prefix, which grows by one, and counts as visited |
| Splitting.Splitter.ScanForBetter | src/include/internal/_Splitter.hpp:67-101 | the scan of a non-constant feature never lowers the best improvement, and its result is no split or a split that separates the window |
| Splitting.Splitter.ScanDrawn | src/include/internal/_Splitter.hpp:67-101 | a non-constant drawn feature is swapped below `featIdI`, which drops by one, and scanned |
| Splitting.Splitter.SwapScanned | src/include/internal/_Splitter.hpp:67-68 | the swap puts the drawn feature at `featIdI - 1` and keeps the search invariant |
| Splitting.Splitter.VisitFeature | src/include/internal/_Splitter.hpp:42-101 | one pass of the feature loop visits one feature and shrinks the unexamined range |
| Splitting.Splitter.SplitNode | src/include/internal/_Splitter.hpp:32-121 | `splitNode` leaves the window a permutation of itself and the rest unchanged, keeps the feature permutation and its old constant prefix, grows the constant count with constant features only, visits at most `numberOfFeaturesToSplit` features (constant ones included), and returns either the default record with split index end, or a split with a positive improvement, enough samples on each side, and the window partitioned around its threshold |
| Splitting.Splitter.ApplySplit | src/include/internal/_Splitter.hpp:104-117 | the window is partitioned only when the split index is below the end, and stays a permutation of the original window |
| Splitting.Splitter.Reordered | src/include/internal/_Splitter.hpp:104-117 | reordering the window keeps the criterion's totals right and a split that separated the old window separates the new one |
| Building.TilesRefine | src/include/internal/_Builder.hpp:65-70 | replacing a popped window by its left and right halves keeps the windows tiling the sample range |
| Building.TilesBefore | src/include/internal/_Builder.hpp:27-29 | in a tiling every window before the top lies to the left of it |
| Building.TilesCover | src/include/internal/_Builder.hpp:24-75 | every sample position of the range lies in some window of a tiling |
| Building.TilesPartition | src/include/internal/_Builder.hpp:24-75 | every sample position lies in exactly one window of a tiling, so every sample reaches exactly one leaf |
| Building.TilesSize | src/include/internal/_Builder.hpp:24-75 | the window sizes of a tiling add up to the size of the range |
| Building.StoredPrefix | src/include/internal/_Builder.hpp:56-62 | a stored leaf stays correct when only samples to the right of its window are reordered |
| Building.AddNodeKeepsLeaves | src/include/internal/_BaseTree.hpp:38-53 | adding a node, which only sets a child of its parent, keeps every leaf a leaf |
| Building.Deeper | src/include/internal/_Builder.hpp:73-74 | the running maximum depth is the larger of its old value and the node depth |
| Building.DepthFirstBuilder.constructor | src/include/internal/_Builder.hpp:12-15 | a new builder keeps its settings and splitter, with minimum impurity 1e-7 |
| Building.DepthFirstBuilder.Decide | src/include/internal/_Builder.hpp:40-54 | a node is a leaf exactly when it is at the maximum depth, has too few samples for a node or for two leaves, has impurity at most 1e-7, or the splitter finds no split; otherwise the window is partitioned by a split leaving enough samples on each side |
| Building.DepthFirstBuilder.Reordered | src/include/internal/_Builder.hpp:52 | reordering samples at or right of the top window keeps the build invariant |
| Building.DepthFirstBuilder.LeafStep | src/include/internal/_Builder.hpp:60-63 | storing a leaf with the class counts of its window pops it from the stack and keeps the build invariant |
| Building.DepthFirstBuilder.SplitStep | src/include/internal/_Builder.hpp:64-71 | pushing the right then the left child keeps the build invariant with the left child on top |
| Building.DepthFirstBuilder.Open | src/include/internal/_Builder.hpp:28-58 | popping a record resets the splitter to its window, decides it and adds its node to the tree |
| Building.DepthFirstBuilder.StoreLeaf | src/include/internal/_Builder.hpp:60-74 | a leaf is stored with its window's class counts and the maximum depth is updated |
| Building.DepthFirstBuilder.SplitBuilding | src/include/internal/_Builder.hpp:64-74 | after a split the stack holds both children and the build invariant holds |
| Building.DepthFirstBuilder.Visit | src/include/internal/_Builder.hpp:27-75 | one pass of the build loop keeps the build invariant and strictly lowers the remaining work, so the loop ends |
| Building.DepthFirstBuilder.Build | src/include/internal/_Builder.hpp:17-77 | `build` keeps the sample indices a permutation, its leaves tile the samples, each leaf stores the class counts of its window at a depth at most the maximum depth, and the recorded tree depth is the deepest node, at most the maximum depth |
| Voting.FirstMax | src/include/models/BaggingClassifier.hpp:78-81 | `std::max_element` gives the first position holding the maximum: every entry is at most it and every earlier entry strictly below it; 0 on an empty vector |
| Voting.FirstMaxUnique | src/include/models/RandomForestClassifier.hpp:117-120 | a position holding the maximum with every earlier entry strictly below it is the one `std::max_element` returns |
| Voting.Ballot | src/include/models/BaggingClassifier.hpp:72-76 | the ballot has one counter per class |
| Voting.BallotTotal | src/include/models/BaggingClassifier.hpp:72-76 | counter k of the ballot is the number of base predictions of class k, and the counters add up to the number of predictions |
| Voting.MajorityVote | src/include/models/BaggingClassifier.hpp:72-81 | the loop that increments one counter per prediction ends with the ballot, and the winner is its first maximum, a class below K |
| Voting.UnanimousVote | src/include/models/BaggingClassifier.hpp:72-81 | when every base model predicts class c, the vote is c |
| Voting.Plus | src/include/models/RandomForestClassifier.hpp:112-114 | `std::transform` with `std::plus` adds two count vectors entry by entry over the first one's length |
| Voting.PlusSum | src/include/models/RandomForestClassifier.hpp:112-114 | the total of the added vector is the sum of the two totals |
| Voting.Copies | src/include/models/RandomForestClassifier.hpp:139-140 | a weight w contributes its truncation, when positive, as that many copies of the sample index |
| Voting.ExpandWeights | src/include/models/RandomForestClassifier.hpp:132-141 | the expansion fails exactly when some weight is not integral, and otherwise lists every index as many times as its weight, in order |
| Voting.ExpandedMultiplicity | src/include/models/GradientBoostingRegressor.hpp:119-128 | an index of the weights occurs in the expansion as many times as its positive integer weight, and no other value occurs |
| Voting.CopiesMultiplicity | src/include/models/RandomForestClassifier.hpp:139-140 | the copies of one index hold only that index |
| Voting.RepeatedMultiplicity | src/include/models/RandomForestClassifier.hpp:139-140 | a sequence holding only one value has that value with multiplicity its length |
| Voting.ExpandedSorted | src/include/models/RandomForestClassifier.hpp:132-141 | the expansion is ascending and holds only indices of the weights |
| Voting.Bootstrap | src/include/models/RandomForestClassifier.hpp:143-150 | the bootstrap sample has as many draws as the training indices, each one of them |
| Voting.DrawnLabelled | src/include/models/BaggingClassifier.hpp:49-58 | a bootstrap sample of labelled training indices is labelled |
| Ensembles.FloorSqrt | src/include/models/RandomForestClassifier.hpp:72-74 | the default number of features to split is the integer square root of the feature count: its square is at most the count and the next square exceeds it |
| Ensembles.Summed | src/include/models/RandomForestClassifier.hpp:109-115 | adding the count vectors the trees reach gives one counter per class |
| Ensembles.PayloadLength | src/include/internal/_ClassificationTree.hpp:19-25 | a count vector a classification tree returns has one entry per class |
| Ensembles.SingleTreeForest | src/include/models/RandomForestClassifier.hpp:109-115 | a forest of one tree adds up exactly that tree's count vector |
| Ensembles.Scaled | src/include/models/RandomForestClassifier.hpp:109-115 | n trees that agree contribute n times their count vector |
| Ensembles.AgreeingTrees | src/include/models/RandomForestClassifier.hpp:105-121 | when every tree reaches the same count vector, the forest's counts are that vector times the number of trees and a non-empty forest predicts the same class as one tree |
| Ensembles.ScaledFirstMax | src/include/models/RandomForestClassifier.hpp:117-120 | multiplying the counts by a positive number keeps the first maximum |
| Ensembles.ScaledStep | src/include/models/RandomForestClassifier.hpp:112-114 | adding one more copy of a count vector to n copies gives n + 1 copies |
| Ensembles.RandomForestClassifier.constructor | src/include/models/RandomForestClassifier.hpp:26-57 | a forest holds the given settings, is untrained and has `numberOfTrees` empty classification trees |
| Ensembles.RandomForestClassifier.Train | src/include/models/RandomForestClassifier.hpp:76-160 | training fails exactly when a weight is not integral; otherwise tree i is grown, as the depth-first builder grows a tree (leaf windows tiling a reordering of the sample, one count entry per leaf, depth within the limit and reached), on sample i, a bootstrap of the weight expansion of the same size, and the model is marked trained |
| Ensembles.GrowForest | src/include/models/RandomForestClassifier.hpp:143-159 | building the trees in turn grows tree i on bootstrap sample i of the weight expansion, from the leaf table it had before, keeping every tree a count tree |
| Ensembles.TreesTrained | src/include/models/RandomForestClassifier.hpp:143-159 | once every tree slot is filled, the samples are the bootstraps drawn and every tree is grown on its own |
| Ensembles.RandomForestClassifier.PredictOne | src/include/models/RandomForestClassifier.hpp:105-121 | the prediction is the first class with the most votes in the sum of the count vectors the trees reach, and fails exactly when one tree's walk fails |
| Ensembles.RandomForestClassifier.ClearAsWritten | src/include/models/RandomForestClassifier.hpp:123-126 | clearing as written empties the tree vector |
| Ensembles.RandomForestClassifier.Clear | src/include/models/RandomForestClassifier.hpp:123-126 | the corrected clear keeps every tree and resets each one to empty |
| Ensembles.GrowCountTree | src/include/models/RandomForestClassifier.hpp:151-152 | building one tree keeps it a valid count tree, and the recorded tree state is grown from the old leaf table on the given sample as the depth-first builder grows it |
| Ensembles.SummedStep | src/include/models/RandomForestClassifier.hpp:110-115 | adding tree n: a failing walk makes the sum fail, otherwise its count vector is added entry by entry |
| Ensembles.SummedPrefixFailure | src/include/models/RandomForestClassifier.hpp:110-115 | a sum that failed on a prefix of the trees fails on them all |
| Ensembles.EmptiedForestPredictsZero | src/include/models/RandomForestClassifier.hpp:109-120 | with no trees the counts are all zero and the vote is class 0 |
| Ensembles.NewRandomForest | src/include/models/RandomForestClassifier.hpp:26-57 | construction fails exactly when the regularization check fails and otherwise yields an untrained forest of `numberOfTrees` trees |
| Ensembles.NewRandomForestUnbudgeted | src/include/models/RandomForestClassifier.hpp:59-67 | the short constructor passes a leaf budget of -1: it fails exactly when a size or depth setting is below 1, and then the depth-first builder is chosen |
| Ensembles.NewDefaultRandomForest | src/include/models/RandomForestClassifier.hpp:69-74 | the shortest constructor uses leaf and node minimum 1, unbounded depth and the integer square root of the feature count |
| Ensembles.TrainBaseModel | src/include/models/BaggingClassifier.hpp:57-58 | training one base model on a labelled sample leaves it a trained base model whose tree is grown on that sample as the depth-first builder grows it |
| Ensembles.BaggingClassifier.constructor | src/include/models/BaggingClassifier.hpp:21-34 | a bagging model is untrained and holds `numberOfBaseModels` fresh untrained tree classifiers with the given settings (valid settings being required once there is a base model to build) |
| Ensembles.NewBaggingClassifier | src/include/models/BaggingClassifier.hpp:21-34 | building a bagging model fails exactly when there is a base model to build and the tree parameters are invalid; otherwise it holds `numberOfBaseModels` untrained tree classifiers with the given parameters |
| Ensembles.BaggingClassifier.Train | src/include/models/BaggingClassifier.hpp:45-68 | base model i is grown, as the depth-first builder grows a tree, on sample i, its own bootstrap of the training indices of the same size; all models and the ensemble are marked trained |
| Ensembles.BagForest | src/include/models/BaggingClassifier.hpp:49-65 | training the base models in turn grows model i on bootstrap sample i of the training indices, from the leaf table it had before |
| Ensembles.ModelsTrained | src/include/models/BaggingClassifier.hpp:49-65 | once every base-model slot is filled, the samples are the bootstraps drawn and every model is trained and grown on its own |
| Ensembles.BaggingClassifier.Votes | src/include/models/BaggingClassifier.hpp:73-76 | the labels the first n base models predict, one per model |
| Ensembles.BaggingClassifier.VotesStep | src/include/models/BaggingClassifier.hpp:73-76 | model n's label is appended, or its error becomes the result |
| Ensembles.BaggingClassifier.VotesPrefixFailure | src/include/models/BaggingClassifier.hpp:73-76 | a failure among the first n models is the result for all of them |
| Ensembles.BaggingClassifier.CollectVotes | src/include/models/BaggingClassifier.hpp:73-76 | the loop over the base models returns their labels in order, each a class below K, or the first error |
| Ensembles.BaggingClassifier.CastVote | src/include/models/BaggingClassifier.hpp:74 | one pass of the loop extends the labels by model n's and keeps them classes below K |
| Ensembles.BaggingClassifier.PredictOne | src/include/models/BaggingClassifier.hpp:70-82 | the prediction is the first class with the most base-model votes, the votes add up to the number of models, and it fails exactly when a base model fails |
| Ensembles.BaggingClassifier.Clear | src/include/models/BaggingClassifier.hpp:84-88 | clearing resets every base model: untrained with an empty tree (through the corrected tree reset, so node indices restart at 0) |
| Ensembles.VotableAppend | src/include/models/BaggingClassifier.hpp:75 | appending a class below K keeps every label a class below K |
| Ensembles.TreeSumPrefixFailure | src/include/models/GradientBoostingRegressor.hpp:92-93 | a sum that failed on a prefix fails with the same error on all trees |
| Ensembles.TreeSumStep | src/include/models/GradientBoostingRegressor.hpp:92-93 | adding tree n: its error becomes the result or its value is added |
| Ensembles.TreeSumAppend | src/include/models/GradientBoostingRegressor.hpp:92-93 | the sum over two groups of trees is the sum of the two sums |
| Ensembles.GradientBoostingRegressor.constructor | src/include/models/GradientBoostingRegressor.hpp:25-54 | a boosting model holds `numberOfTrees` empty regression trees, splits on all features and has learning rate 1 |
| Ensembles.GradientBoostingRegressor.PredictOne | src/include/models/GradientBoostingRegressor.hpp:87-95 | the prediction is the plain sum of the tree values, without the learning rate |
| Ensembles.GradientBoostingRegressor.ClearAsWritten | src/include/models/GradientBoostingRegressor.hpp:97-100 | clearing as written empties the tree vector |
| Ensembles.GradientBoostingRegressor.Clear | src/include/models/GradientBoostingRegressor.hpp:97-100 | the corrected clear keeps every tree and resets each one to empty |
| Ensembles.EmptiedBoostingPredictsZero | src/include/models/GradientBoostingRegressor.hpp:87-95 | with no trees every prediction is 0 |
| Ensembles.NewGradientBoosting | src/include/models/GradientBoostingRegressor.hpp:25-54 | construction fails exactly when the regularization check fails, and otherwise yields an untrained model of `numberOfTrees` trees with learning rate 1 |
| TreeModels.GrowTree | src/include/internal/_Builder.hpp:17-77 | growing a tree over the training indices keeps them a permutation, tiles them with leaves each storing its window's class counts after the old leaf table, and records a depth at most the maximum depth |
| TreeModels.GrownCountVectors | src/include/internal/_ClassificationTree.hpp:19-25 | after growing, every count vector in the leaf table has one entry per class |
| TreeModels.Winner | src/include/models/TreeClassifier.hpp:95-100 | the label is the first class with the largest count: a whole number below the class count, every count at most its count, every earlier count strictly smaller |
| TreeModels.TreeClassifier.constructor | src/include/models/TreeClassifier.hpp:26-49 | a tree classifier holds its settings, splits on all features, is untrained and has an empty tree |
| TreeModels.TreeClassifier.Train | src/include/models/TreeClassifier.hpp:51-89 | training grows the tree from the training indices with the depth-first builder, as GrowTree states, and marks the model trained |
| TreeModels.TreeClassifier.Fit | src/include/internal/_BaseClassifier.hpp:50-110 | training on a whole data set fails exactly when the input check fails, leaving the model as it was, and otherwise trains on all rows |
| TreeModels.TreeClassifier.Label | src/include/models/TreeClassifier.hpp:91-101 | a label exists exactly when the tree walk succeeds, and it is the winner of the count vector reached |
| TreeModels.TreeClassifier.PredictOne | src/include/models/TreeClassifier.hpp:91-101 | `predictOne` returns the winner of the leaf's count vector, a class below K |
| TreeModels.TreeClassifier.Labels | src/include/internal/_BaseClassifier.hpp:136-151 | the labels of the given rows, in order, each one the tree's label for its row |
| TreeModels.TreeClassifier.PredictAt | src/include/internal/_BaseClassifier.hpp:136-151 | predicting at test indices fails exactly when some row's walk fails; otherwise every test position holds its label and every other position the placeholder |
| TreeModels.TreeClassifier.LabelsStep | src/include/internal/_BaseClassifier.hpp:145-149 | one more row: its label is appended, or the labels fail |
| TreeModels.TreeClassifier.LabelsPrefixFailure | src/include/internal/_BaseClassifier.hpp:145-149 | a failure on a prefix of the rows fails the whole prediction |
| TreeModels.TreeClassifier.Predict | src/include/internal/_BaseClassifier.hpp:112-134 | predicting fails when the model is untrained or the feature count differs, otherwise exactly when a row's walk fails, and the labels are those of every row in order |
| TreeModels.TreeClassifier.Clear | src/include/internal/_BaseClassifier.hpp:171-175 | clearing marks the model untrained and resets the tree to no nodes and no leaves (the corrected tree reset, so node indices restart at 0) |
| TreeModels.ScatteredStep | src/include/internal/_BaseClassifier.hpp:145-149 | writing one more prediction at its index updates the label vector at that index only |
| TreeModels.ScatteredAll | src/include/internal/_BaseClassifier.hpp:112-134 | predictions written at every index replace the placeholders completely |
| TreeModels.NewTreeClassifier | src/include/models/TreeClassifier.hpp:26-49 | construction fails exactly when the regularization check fails, and otherwise yields an untrained classifier with an empty tree splitting on all features |
| TreeModels.TreeRegressor.constructor | src/include/models/TreeRegressor.hpp:25-48 | a tree regressor holds its settings, splits on all features, is untrained and has an empty tree |
| TreeModels.TreeRegressor.PredictOne | src/include/models/TreeRegressor.hpp:91-97 | `predictOne` returns the value stored for the leaf the walk reaches, or the walk's error |
| TreeModels.TreeRegressor.Values | src/include/internal/_BaseRegressor.hpp:78-92 | the values of the given rows, in order, each one the tree's value for its row |
| TreeModels.TreeRegressor.ValuesStep | src/include/internal/_BaseRegressor.hpp:85-90 | one more row: its value is appended, or the values fail |
| TreeModels.TreeRegressor.ValuesPrefixFailure | src/include/internal/_BaseRegressor.hpp:85-90 | a failure on a prefix of the rows fails the whole prediction |
| TreeModels.TreeRegressor.PredictAt | src/include/internal/_BaseRegressor.hpp:78-92 | predicting at test indices fails exactly when some row's walk fails; otherwise every test position holds its value and every other position the placeholder |
| TreeModels.TreeRegressor.Predict | src/include/internal/_BaseRegressor.hpp:54-75 | predicting fails when the model is untrained or the feature count differs, otherwise exactly when a row's walk fails, and the values are those of every row in order |
| TreeModels.TreeRegressor.Clear | src/include/internal/_BaseRegressor.hpp:107-110 | clearing marks the model untrained and resets the tree to no nodes and no leaves (the corrected tree reset, so node indices restart at 0) |
| TreeModels.NewTreeRegressor | src/include/models/TreeRegressor.hpp:25-48 | construction fails exactly when the regularization check fails, and otherwise yields an untrained regressor with an empty tree splitting on all features |
| Multiclass.Row | src/include/models/MulticlassClassifier.hpp:105 | the inner loop for first class i visits the pairs (i, i+1) … (i, K-1) |
| Multiclass.Pairs | src/include/models/MulticlassClassifier.hpp:103-105 | the pair order of training and prediction lists class pairs with the first class below the second |
| Multiclass.PairsFromCount | src/include/models/MulticlassClassifier.hpp:104-105 | the pairs whose first class is at least i number (K-i)(K-i-1)/2 |
| Multiclass.PairsCount | src/include/models/MulticlassClassifier.hpp:31 | there are K(K-1)/2 pairs, one per binary model |
| Multiclass.PairsFromShape | src/include/models/MulticlassClassifier.hpp:104-105 | the pairs from first class i on are ordered lexicographically, lie between i and K-1 and include every pair a < b from i on |
| Multiclass.PairsShape | src/include/models/MulticlassClassifier.hpp:103-105 | the K(K-1)/2 pairs are exactly the pairs a < b of classes below K, in lexicographic order without repetition |
| Multiclass.RowPart | src/include/models/MulticlassClassifier.hpp:105 | the first m pairs of row i are (i, i+1) … (i, i+m) |
| Multiclass.RowPartInvolving | src/include/models/MulticlassClassifier.hpp:105 | class k appears in m pairs of that part when it is i, in one when it lies in i+1 … i+m, and in none otherwise |
| Multiclass.PairsFromInvolving | src/include/models/MulticlassClassifier.hpp:104-105 | a class k from i on appears in K-1-i of the pairs from first class i on |
| Multiclass.PairsAfterMiss | src/include/models/MulticlassClassifier.hpp:104-105 | class i appears in no pair whose first class exceeds i |
| Multiclass.PairsInvolving | src/include/models/MulticlassClassifier.hpp:166-171 | every class below K appears in exactly K-1 pairs, so it can collect at most K-1 votes |
| Multiclass.VoteOf | src/include/models/MulticlassClassifier.hpp:169 | a pair's result votes for one of its two classes: the first on 0, the second otherwise |
| Multiclass.Tally | src/include/models/MulticlassClassifier.hpp:164-171 | the vote vector has one counter per class |
| Multiclass.TallyStep | src/include/models/MulticlassClassifier.hpp:168-170 | one more pair adds one vote to the class its result names |
| Multiclass.CountVotes | src/include/models/MulticlassClassifier.hpp:164-171 | the vote loop yields the tally of the pair results, and the votes add up to the number of pairs |
| Multiclass.TallyTotal | src/include/models/MulticlassClassifier.hpp:164-171 | the votes add up to the number of pairs |
| Multiclass.TallyBound | src/include/models/MulticlassClassifier.hpp:164-171 | a class collects at most one vote per pair naming it, and exactly that many when it wins all of them |
| Multiclass.TallyLost | src/include/models/MulticlassClassifier.hpp:164-171 | a class that loses a pair naming it collects fewer votes than the pairs naming it |
| Multiclass.BeatsAll | src/include/models/MulticlassClassifier.hpp:164-182 | a class that wins every pair naming it is the prediction |
| Multiclass.Subset | src/include/models/MulticlassClassifier.hpp:111-124 | the rows kept for a pair (i, j) are the rows labelled exactly i or j, in increasing order |
| Multiclass.SubsetMember | src/include/models/MulticlassClassifier.hpp:111-124 | every row labelled exactly i or j is kept |
| Multiclass.BinaryLabels | src/include/models/MulticlassClassifier.hpp:112-123 | a kept row is relabelled 0 when labelled i and 1 otherwise |
| Multiclass.PairData | src/include/models/MulticlassClassifier.hpp:106-124 | the pair's data holds the kept rows in order and the pair's labels their 0/1 relabelling |
| Multiclass.PairSubsetSize | src/include/models/MulticlassClassifier.hpp:106-124 | the kept rows number the rows of class i plus those of class j |
| Multiclass.PairBufferSize | src/include/models/MulticlassClassifier.hpp:106 | the buffer reserved for a pair holds the counts of its two classes |
| Multiclass.NonIntegralLabelAccepted | src/include/models/MulticlassClassifier.hpp:74-124 | as written, labels 0, 1.5, 1 with K = 2 pass every check of `train` (1.5 is counted as class 1) yet the subset loop keeps two rows for a buffer of three; the corrected check rejects them |
| Multiclass.BinaryRepresented | src/include/models/MulticlassClassifier.hpp:111-124 | when both classes have rows and all labels are whole numbers, the pair labels use both binary classes, so the binary classifier accepts them |
| Multiclass.TrainPair | src/include/models/MulticlassClassifier.hpp:126 | training one pair model leaves it a trained binary tree classifier whose tree is grown on the pair's kept rows, relabelled 0/1, as the depth-first builder grows it |
| Multiclass.PairSubsets | src/include/models/MulticlassClassifier.hpp:103-128 | one kept-row list per pair, in pair order |
| Multiclass.PairSubsetsSized | src/include/models/MulticlassClassifier.hpp:103-128 | the kept rows of every pair fill exactly the buffer reserved for it |
| Multiclass.MulticlassClassifier.constructor | src/include/models/MulticlassClassifier.hpp:28-37 | a multiclass model has K(K-1)/2 fresh untrained copies of the binary model and is untrained |
| Multiclass.MulticlassClassifier.Train | src/include/models/MulticlassClassifier.hpp:46-133 | training fails exactly when the label type, the feature count, the row count or a label is wrong or a class has no row; otherwise pair model p is trained on the rows of pair p relabelled 0/1, and everything is marked trained |
| Multiclass.MulticlassClassifier.TrainPairs | src/include/models/MulticlassClassifier.hpp:103-128 | every pair model is trained, and its tree grown as the depth-first builder grows it, on its own kept rows relabelled 0/1 |
| Multiclass.TrainEach | src/include/models/MulticlassClassifier.hpp:103-128 | training the pair models one after the other grows each tree on its own pair's relabelled rows, from the leaf table it had before |
| Multiclass.PairsTrained | src/include/models/MulticlassClassifier.hpp:103-128 | once every pair slot is filled, every pair model is trained and its tree is grown from its own pair's input |
| Multiclass.MulticlassClassifier.Results | src/include/models/MulticlassClassifier.hpp:166-171 | the results of the first n pair models, one per model |
| Multiclass.MulticlassClassifier.ResultsStep | src/include/models/MulticlassClassifier.hpp:168 | model n's result is appended, or its error becomes the result |
| Multiclass.MulticlassClassifier.ResultsPrefixFailure | src/include/models/MulticlassClassifier.hpp:166-171 | a failure among the first n pair models is the result for all of them |
| Multiclass.MulticlassClassifier.CollectResults | src/include/models/MulticlassClassifier.hpp:166-171 | the pair loop returns every pair model's result in order, or the first error |
| Multiclass.MulticlassClassifier.AddResult | src/include/models/MulticlassClassifier.hpp:168 | one pass of the pair loop extends the results by model n's |
| Multiclass.MulticlassClassifier.PredictOne | src/include/models/MulticlassClassifier.hpp:162-183 | one instance's label is the smallest class with the most pair votes, a class below K |
| Multiclass.MulticlassClassifier.RowLabels | src/include/models/MulticlassClassifier.hpp:162-183 | the labels of the first n rows, one per row |
| Multiclass.MulticlassClassifier.RowLabelsStep | src/include/models/MulticlassClassifier.hpp:162-183 | row n's label is appended, or the labels fail |
| Multiclass.MulticlassClassifier.RowLabelsPrefixFailure | src/include/models/MulticlassClassifier.hpp:162-183 | a failure on a prefix of the rows fails the whole prediction |
| Multiclass.MulticlassClassifier.Predict | src/include/models/MulticlassClassifier.hpp:142-186 | predicting fails when the model is untrained or the feature count differs, otherwise exactly when a row fails, and yields classification labels of every row in order |
| Multiclass.MulticlassClassifier.LabelRows | src/include/models/MulticlassClassifier.hpp:162-183 | the row loop returns the label of every row in order, or the first error |
| Multiclass.MulticlassClassifier.Clear | src/include/models/MulticlassClassifier.hpp:191-196 | clearing resets every pair model to untrained with an empty tree and marks the model untrained (through the corrected tree reset) |
| Folding.FoldStartStep | src/include/validation/CrossValidation.hpp:170-176 | the next fold starts where the current one ends |
| Folding.FoldStartClosed | src/include/validation/CrossValidation.hpp:160-166 | fold f starts after f folds of the mean size plus one extra sample for each earlier fold among the first `numberOfData % numberOfFolds` |
| Folding.FoldStartBounds | src/include/validation/CrossValidation.hpp:160-176 | fold starts run from 0 to the number of data without decreasing |
| Folding.FoldStartMonotone | src/include/validation/CrossValidation.hpp:170-176 | a later fold never starts earlier |
| Folding.Fold | src/include/validation/CrossValidation.hpp:172-174 | fold f copies its slice of the index order, of the fold's size |
| Folding.Folds | src/include/validation/CrossValidation.hpp:160-176 | there are k folds, the first `n % k` of size `n / k + 1` and the others of size `n / k` |
| Folding.FlattenAppend | src/include/validation/CrossValidation.hpp:168-176 | concatenating two lists of folds concatenates their contents |
| Folding.FoldsCover | src/include/validation/CrossValidation.hpp:168-176 | the folds, put back together in order, are the index order itself |
| Folding.Order | src/include/validation/CrossValidation.hpp:153-158 | the index order is 0..n-1 or the given shuffle, a permutation of 0..n-1 either way |
| Folding.KFolds | src/include/validation/CrossValidation.hpp:143-179 | `KFolds` fails exactly when the fold count is at most 1 or exceeds the number of data, and otherwise cuts the index order into the folds above |
| Folding.UnshuffledFolds | src/include/validation/CrossValidation.hpp:153-176 | without shuffling fold f is the consecutive range from its start to the next start |
| Folding.KFoldsPartition | src/include/validation/CrossValidation.hpp:143-179 | with 0 < k <= n the folds partition 0..n-1: every index is in exactly one fold, and no fold is empty |
| Folding.FoldsDisjoint | src/include/validation/CrossValidation.hpp:170-176 | no index lies in two different folds |
| Folding.Position | src/include/validation/CrossValidation.hpp:172-174 | an entry of fold f sits in the index order between the fold's start and the next start |
| Folding.TwiceCounted | src/include/validation/CrossValidation.hpp:153-158 | a value at two positions occurs at least twice |
| Folding.RangeMultiplicity | src/include/validation/CrossValidation.hpp:155 | 0..n-1 holds every index below n once and nothing else |
| Stratification.MinOf | src/include/validation/CrossValidation.hpp:222 | `std::min_element`'s value: at most every count and equal to one of them |
| Stratification.CountRangeStep | src/include/validation/CrossValidation.hpp:202-212 | counting class c over one more index adds one exactly when that index has class c |
| Stratification.CountRangePrefix | src/include/validation/CrossValidation.hpp:253-259 | the running count of a class never exceeds its final count |
| Stratification.RankBelowPopulation | src/include/validation/CrossValidation.hpp:255 | the running count `labelsReCount` of a sample's class, read at that sample, is below the class's population, so the index map is read in bounds |
| Stratification.FoldOf | src/include/validation/CrossValidation.hpp:243-245 | the fold holding within-class position r is the one whose range contains r |
| Stratification.FoldFrom | src/include/validation/CrossValidation.hpp:243-245 | searching folds from g on finds the fold whose range contains r |
| Stratification.FoldOfUnique | src/include/validation/CrossValidation.hpp:243-245 | only one fold's range contains a position |
| Stratification.Assigned | src/include/validation/CrossValidation.hpp:253-256 | a sample's test fold is a fold below k |
| Stratification.Assignment | src/include/validation/CrossValidation.hpp:249-259 | `testFolds` gives every sample a fold below k |
| Stratification.StratifiedFolds | src/include/validation/CrossValidation.hpp:264-276 | there are k stratified folds |
| Stratification.Gatherings | src/include/validation/CrossValidation.hpp:264-274 | after the first t samples, fold f holds the samples before t assigned to it |
| Stratification.GatheredMembers | src/include/validation/CrossValidation.hpp:271-274 | a fold holds exactly the samples assigned to it, in increasing order |
| Stratification.FlattenEmpty | src/include/validation/CrossValidation.hpp:264-269 | empty folds hold nothing |
| Stratification.FlattenInsert | src/include/validation/CrossValidation.hpp:273 | pushing one sample onto a fold adds exactly it to the folds' contents |
| Stratification.GatheringsStep | src/include/validation/CrossValidation.hpp:271-274 | one pass of the gathering loop appends sample t to its fold |
| Stratification.GatheredCover | src/include/validation/CrossValidation.hpp:271-274 | after t samples the folds together hold exactly 0..t-1 once each |
| Stratification.GatheredCoverStep | src/include/validation/CrossValidation.hpp:271-274 | one pass adds exactly sample t to the folds' contents |
| Stratification.RangeStep | src/include/validation/CrossValidation.hpp:271-274 | 0..t holds 0..t-1 and t |
| Stratification.ClassInFoldPrefix | src/include/validation/CrossValidation.hpp:253-259 | among the first t samples, fold f holds as many of class c as the overlap of its within-class range with the class's running count |
| Stratification.OverlapStep | src/include/validation/CrossValidation.hpp:253-259 | one more class member adds one to the overlap exactly when its rank lies in the fold's range |
| Stratification.AssignedIn | src/include/validation/CrossValidation.hpp:239-256 | a sample goes to fold f exactly when its rank within its class lies in the class's fold f range |
| Stratification.ClassInFold | src/include/validation/CrossValidation.hpp:233-276 | fold f holds `population / k` members of every class, plus one when f is below `population % k`: each class is spread over the folds as evenly as possible |
| Stratification.StratifiedPartition | src/include/validation/CrossValidation.hpp:264-276 | the stratified folds partition the samples, fold f holds exactly the samples assigned to it, and each fold is in increasing order |
| Stratification.StratifiedFoldsNonEmpty | src/include/validation/CrossValidation.hpp:224-231 | after the checks pass, no fold is empty |
| Stratification.DivAtLeastOne | src/include/validation/CrossValidation.hpp:224-231 | a class with at least k members gives every fold at least one |
| Stratification.ClassesBelow | src/include/validation/CrossValidation.hpp:199-212 | every non-negative label is below the class count taken from the largest label, so only negative labels fail the range check |
| Stratification.NegativeMaximum | src/include/validation/CrossValidation.hpp:199 | a negative class count means the largest label, and so the first, is negative |
| Stratification.IndexMapToFold | src/include/validation/CrossValidation.hpp:240-247 | the index map of a class sends every within-class position to the fold containing it |
| Stratification.ClassFoldMaps | src/include/validation/CrossValidation.hpp:233-247 | one index map per class, each mapping the class's positions to their folds |
| Stratification.AssignFolds | src/include/validation/CrossValidation.hpp:249-259 | the assignment loop computes exactly the specified test fold of every sample |
| Stratification.GatherFolds | src/include/validation/CrossValidation.hpp:264-274 | the gathering loop builds exactly the folds of the assignment |
| Stratification.CountLabels | src/include/validation/CrossValidation.hpp:200-212 | the count loop fails exactly when a label is outside [0, number of classes), and otherwise yields the class counts |
| Stratification.CheckClassSizes | src/include/validation/CrossValidation.hpp:214-231 | the size check fails exactly when some class has fewer members than folds (an empty class included) |
| Stratification.CountsArePopulations | src/include/validation/CrossValidation.hpp:202-212 | the count of class c is its population |
| Stratification.SplitByClass | src/include/validation/CrossValidation.hpp:233-276 | folding each class, assigning and gathering yields exactly the stratified folds |
| Stratification.StratifiedKFolds | src/include/validation/CrossValidation.hpp:181-277 | `StratifiedKFolds` fails exactly when the fold count is out of range, the labels are not classification, a label is out of range or a class is smaller than the fold count, and otherwise yields the stratified folds |
| Validation.NewCrossValidation | src/include/validation/CrossValidation.hpp:26-71 | construction fails exactly when the row and label counts differ, the fold count is outside (1, n], or stratified splitting rejects classification labels; otherwise it keeps the data and labels and holds stratified folds for classification and K folds for regression |
| Validation.SplitSamples | src/include/validation/CrossValidation.hpp:46-70 | the fold choice by label type: stratified folds for classification, which can fail, and K folds for regression; either way the folds partition the samples and none is empty |
| Validation.OtherFolds | src/include/validation/CrossValidation.hpp:109-116 | the training indices of a round come from the folds other than the test fold |
| Validation.OtherFoldAppend | src/include/validation/CrossValidation.hpp:109-116 | one more fold (skipped when it is the test fold) keeps every training index from another fold |
| Validation.OtherFoldsSize | src/include/validation/CrossValidation.hpp:109-116 | the training indices plus the test fold, when already passed, number the indices of the folds passed |
| Validation.FoldInRange | src/include/validation/CrossValidation.hpp:103-106 | every index of a fold is a row of the data |
| Validation.PartitionBounded | src/include/validation/CrossValidation.hpp:109-116 | a partition of the samples has every index in range |
| Validation.FlattenHolds | src/include/validation/CrossValidation.hpp:109-116 | every index of a fold is among the folds' contents |
| Validation.RowsAt | src/include/validation/CrossValidation.hpp:95-112 | picking rows keeps the column count, one row per index |
| Validation.LabelsAt | src/include/validation/CrossValidation.hpp:98-113 | picking labels keeps the label type, one label per index |
| Validation.PickedAppend | src/include/validation/CrossValidation.hpp:109-116 | picking the rows and labels of two index lists in a row is picking them of the concatenation |
| Validation.CopyRows | src/include/validation/CrossValidation.hpp:111-115 | the copy loop appends the picked rows and labels |
| Validation.SplitRound | src/include/validation/CrossValidation.hpp:90-118 | round f tests on the rows and labels of fold f and trains on those of the other folds in fold order, n minus the fold's size of them |
| Validation.TrainSize | src/include/validation/CrossValidation.hpp:93-118 | the training indices number n minus the test fold's size, as the assertion states |
| Validation.ComputeValidationLosses | src/include/validation/CrossValidation.hpp:77-134 | the losses fail for a regression problem with a classifier, and otherwise there is one loss per round, in [0, 1], equal to the share of that fold's samples whose prediction in that round differs from the label |
| Validation.ValidationRound | src/include/validation/CrossValidation.hpp:120-125 | one round grows the tree on the rows and labels of the other folds, the loss being the share of the held-out fold's samples whose prediction by that tree differs from the label, in [0, 1] |
| Validation.ScoreFold | src/include/validation/CrossValidation.hpp:122-124 | scoring a held-out fold succeeds only for a trained model, and the loss is the share of its rows whose predicted class differs from the label |
| Scaling.Column | src/include/preprocessing/MinMaxScaler.hpp:34-35 | column j holds entry j of every row |
| Scaling.ColumnMaxima | src/include/preprocessing/MinMaxScaler.hpp:31-35 | `maxCoeff` per column: one maximum per feature, at least every entry of its column and equal to one of them |
| Scaling.ColumnMinima | src/include/preprocessing/MinMaxScaler.hpp:32-35 | `minCoeff` per column: one minimum per feature, at most every entry of its column and equal to one of them |
| Scaling.ScaledEndpoints | src/include/preprocessing/MinMaxScaler.hpp:62-72 | a column's minimum maps to the lower bound and its maximum to the upper bound; a constant column is copied unchanged |
| Scaling.ScaledMonotone | src/include/preprocessing/MinMaxScaler.hpp:62-72 | scaling keeps the order of values when lower <= upper |
| Scaling.ScaledWithin | src/include/preprocessing/MinMaxScaler.hpp:62-72 | a value between the column's extremes lands between the bounds |
| Scaling.ScaledRoundTrip | src/include/preprocessing/MinMaxScaler.hpp:62-72 | when the bounds differ (or the column is constant) the scaling is inverted by the reverse map, so no information is lost |
| Scaling.Transformed | src/include/preprocessing/MinMaxScaler.hpp:62-75 | the transformed matrix has the shape of the input and each entry scaled by its column's extremes |
| Scaling.FitTransformBounds | src/include/preprocessing/MinMaxScaler.hpp:83-87 | after `fitTransform` every non-constant column lies within the bounds and reaches both of them, and every constant column is unchanged |
| Scaling.MinMaxScaler.constructor | src/include/preprocessing/MinMaxScaler.hpp:21-22 | a new scaler holds the bounds (-1 and 1 by default) and is not fitted |
| Scaling.MinMaxScaler.Fit | src/include/preprocessing/MinMaxScaler.hpp:28-41 | fitting records the feature count and the maximum and minimum of every column, and marks the scaler fitted |
| Scaling.MinMaxScaler.Transform | src/include/preprocessing/MinMaxScaler.hpp:48-76 | transforming fails exactly when the scaler is not fitted or the feature count differs, and otherwise scales every entry by its column's fitted extremes |
| Scaling.MinMaxScaler.FitTransform | src/include/preprocessing/MinMaxScaler.hpp:83-87 | `fitTransform` fits, then returns the data scaled by its own extremes |
| Scaling.MinMaxScaler.Clear | src/include/preprocessing/MinMaxScaler.hpp:92-96 | clearing sets the feature count to 0 and the scaler to not fitted, keeping the stored extremes |
| Scaling.ExtremesOrdered | src/include/preprocessing/MinMaxScaler.hpp:34-35 | every column's minimum is at most its maximum |

## Left out

- The best-first builder `_BestFirstBuilder` and the splitters `_BestSplitter` and `_PresortBestSplitter` are not part of this model. The models train with the depth-first builder of `src/include/internal/_Builder.hpp` and its splitter, so training needs a leaf budget below 0.
- TreeModels.TreeClassifier.Train, Ensembles.RandomForestClassifier.Train, Ensembles.BaggingClassifier.constructor, Ensembles.NewBaggingClassifier and Multiclass.MulticlassClassifier.constructor: require the depth-first builder (a leaf budget of -1), because the best-first builder is not part of this model.
- The builder and splitter are modelled over the classification criterion only. Training a `TreeRegressor` and training `GradientBoostingRegressor` (its weight expansion, the unused `residual` copy at `GradientBoostingRegressor.hpp:132` and the running predictions) need a regression builder, which is not modelled. The regression criterion is modelled on its own, and the weight expansion it would use is `Voting.ExpandWeights`.
- `GradientBoostingRegressor::setLearningRate`, `TreeClassifier::setNumberOfRandomFeauturesToSplit` and the other reference-returning setters are left out. They only expose a field for assignment.
- `rand()` is not modelled as a generator.
  - In the splitter it is a nondeterministic choice of an unexamined feature.
  - In the bootstrap draws it is a nondeterministic choice of a member of the training indices.
  - Ensembles.RandomForestClassifier.Train, Ensembles.BaggingClassifier.Train and Voting.Bootstrap state only what holds for every draw: the sample size and membership, and that each tree is grown on its own sample.
- The shuffle in `KFolds` is any permutation passed in (`shuffled`), not `std::default_random_engine`. Stratification.StratifiedKFolds models the unshuffled case only, because each class would need its own shuffle with seed `randomSeed + classId`.
- Floating-point doubles are exact reals, and `long`s are unbounded integers.
  - Rounding, NaN and overflow are not modelled. The default maximum depth `std::numeric_limits<long>::max()` is the constant `BaseModels.LongMax`.
  - Dividing members require non-zero denominators: Criterion.ClassificationCriterion.NodeImpurity, Criterion.ClassificationCriterion.ChildrenImpurity, Criterion.ClassificationCriterion.ImpurityImprove and RegressionCriteria.RegressionCriterion.Update (which requires `start < p < end`). In the library those divisions yield NaN or infinity.
- `entropy` takes the natural logarithm as a parameter `ln`, since `log` is a floating-point kernel. Its results are stated only through the terms it skips.
- The `printf`/`cout` warnings and verbose summaries are not modelled, nor are `setVerbose`/`whetherVerbose`. They only print.
- Scaling.MinMaxScaler.constructor: `_numberOfFeatures` is left uninitialised by the library until `fit`; the model starts it at 0.
- Scaling.MinMaxScaler.Fit: requires a row when there are columns, because `maxCoeff` of an empty column is undefined.
- Validation.ComputeValidationLosses and Validation.ValidationRound: model the cross-validation of a `TreeClassifier` only. Each loss is tied to the predictions of the tree grown in its round, but which tree the random splitter grows is not fixed, so the predictions themselves are ghost outputs rather than a function of the data.
- Multiclass.MulticlassClassifier.constructor: the binary model is a `TreeClassifier`. The library copies any binary classifier through `std::unique_ptr`; here each pair model is a fresh tree classifier with the given settings.
- The unit-test claim that a tree classifier trained on the seven-sample two-feature example reproduces every training label is not modelled. It depends on a concrete run of the randomised splitter on floating-point data.
- File I/O is left out: `directoryCreator`, the reading and writing parts of `readCPPLearnDataFile` and of the libsvm conversion, and `convertString` (`atoi`/`atof`). Only the line-level logic on parsed numbers is modelled.
- `computeStandardDeviation`, `StandardScaler`, the kernels, the support-vector, libsvm, liblinear and ridge models, the quadratic-programming wrapper, and the model templates are not part of this model. They are floating-point kernels or calls into foreign libraries.
- C++ `assert`s are preconditions, and exceptions are `Failure` results carrying their message. Two kinds of sharing become Dafny references: the criterion shared between the splitter and its caller, and the sample-index vector shared between the criterion and the splitter.

## Findings

| source | as written | input that shows it | evidently intended | confidence | as-written member | corrected member |
|---|---|---|---|---|---|---|
| src/include/internal/_BaseTree.hpp:30-52 | `reset` clears the nodes but not `_nodeCount`, and `addNode` returns `_nodeCount-1` | a tree with one node, reset, then a new root: it is stored at position 0 but given index 1 | `reset` also zeroes `_nodeCount`, so indices equal positions | high, not executed | Trees.Tree.ResetAsWritten, Trees.StaleIndexAfterReset | Trees.Tree.Reset, Trees.FreshIndexAfterReset, TreeModels.TreeClassifier.Clear, TreeModels.TreeRegressor.Clear, Ensembles.BaggingClassifier.Clear, Multiclass.MulticlassClassifier.Clear |
| src/include/internal/_RegressionCriterion.hpp:25-32 | `_init` adds the window's labels to `_sumTotal` and `_sqSumTotal` without zeroing them | labels [1.0, 2.0], a node holding sample 0 and then a node holding sample 1: the second mean is 3.0 instead of 2.0 | the sums start from 0 for each node | high, not executed | RegressionCriteria.RegressionCriterion.InitAsWritten, RegressionCriteria.CarriedSumExample | RegressionCriteria.RegressionCriterion.Init |
| src/include/internal/_Tree.hpp:25-69 | the constructor fixes the class count at 0, and `addLeaf` asserts the count vector has that length | any leaf with one class or more: a count vector of length 1 fails the assertion | the tree knows the number of classes, as `_ClassificationTree` does | high, not executed | Trees.NewLegacyTreeAsWritten, Trees.LegacyLeafRefused | Trees.NewLegacyTree |
| src/include/models/RandomForestClassifier.hpp:123-126 | `_clearModel` empties the tree vector, so later training builds no tree | clear, then train and predict: every instance is predicted class 0 | clear resets each tree and keeps `numberOfTrees` of them | medium, not executed | Ensembles.RandomForestClassifier.ClearAsWritten, Ensembles.EmptiedForestPredictsZero | Ensembles.RandomForestClassifier.Clear |
| src/include/models/GradientBoostingRegressor.hpp:97-100 | `_clearModel` empties the tree vector, so later training builds no tree | clear, then train and predict: every instance is predicted 0 | clear resets each tree and keeps `numberOfTrees` of them | medium, not executed | Ensembles.GradientBoostingRegressor.ClearAsWritten, Ensembles.EmptiedBoostingPredictsZero | Ensembles.GradientBoostingRegressor.Clear |
| src/include/models/MulticlassClassifier.hpp:74-125 | the label check accepts any value in [0, K) and counts it under its truncation, but the subset loop compares labels exactly | K = 2, labels [0.0, 1.5, 1.0]: the check passes, three rows are reserved for the pair (0, 1), and only two are copied | non-integral labels are rejected by the check | medium, not executed | Multiclass.NonIntegralLabelAccepted | Multiclass.MulticlassClassifier.Train |
