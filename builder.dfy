/**
 * The depth-first tree builder: a stack of pending nodes, each a window of
 * the splitter's sample-index array. A popped node either becomes a leaf
 * holding its class counts, or is split and its two children are pushed,
 * left on top.
 */
module Building {
  import opened Counting
  import opened Samples
  import opened Records
  import opened Trees
  import opened Splitting
  import opened Criterion
  import opened Impurity

  /** A node whose impurity is at most this is not split. */
  const MinImpurity: real := 0.0000001

  /** The number of samples in a record's window. */
  function Size(r: StackRecord): int
  {
    r.endIndex - r.startIndex
  }

  /** The windows of `ws`, in order, cover `[s, e)` end to end. */
  ghost predicate Tiles(ws: seq<StackRecord>, s: int, e: int)
    decreases |ws|
  {
    if |ws| == 0 then s == e
    else ws[0].startIndex == s && s <= ws[0].endIndex && Tiles(ws[1..], ws[0].endIndex, e)
  }

  /** Replacing one window by two halves of it keeps a tiling. */
  lemma {:induction false} TilesRefine(xs: seq<StackRecord>, r: StackRecord, rest: seq<StackRecord>,
                                       l: StackRecord, q: StackRecord, s: int, e: int)
    requires Tiles(xs + [r] + rest, s, e)
    requires l.startIndex == r.startIndex && l.endIndex == q.startIndex && q.endIndex == r.endIndex
    requires l.startIndex <= l.endIndex <= q.endIndex
    ensures Tiles(xs + [l, q] + rest, s, e)
    decreases |xs|
  {
    if |xs| == 0 {
      assert xs + [r] + rest == [r] + rest;
      assert (xs + [l, q] + rest)[1..] == [q] + rest;
      assert ([q] + rest)[1..] == rest;
      assert ([r] + rest)[1..] == rest;
    } else {
      assert (xs + [r] + rest)[1..] == xs[1..] + [r] + rest;
      assert (xs + [l, q] + rest)[1..] == xs[1..] + [l, q] + rest;
      TilesRefine(xs[1..], r, rest, l, q, xs[0].endIndex, e);
    }
  }

  /** In a tiling, every window before `ys` ends where `ys` starts or
      earlier. */
  lemma {:induction false} TilesBefore(xs: seq<StackRecord>, ys: seq<StackRecord>, s: int, e: int)
    requires Tiles(xs + ys, s, e) && |ys| > 0
    ensures s <= ys[0].startIndex
    ensures forall j :: 0 <= j < |xs| ==> s <= xs[j].startIndex <= xs[j].endIndex <= ys[0].startIndex
    decreases |xs|
  {
    if |xs| == 0 {
      assert xs + ys == ys;
    } else {
      assert (xs + ys)[1..] == xs[1..] + ys;
      TilesBefore(xs[1..], ys, xs[0].endIndex, e);
      assert forall j :: 1 <= j < |xs| ==> xs[j] == xs[1..][j - 1];
    }
  }

  /** Every position of `[s, e)` lies in a window of a tiling of it. */
  lemma {:induction false} TilesCover(ws: seq<StackRecord>, s: int, e: int, x: int)
    requires Tiles(ws, s, e) && s <= x < e
    ensures exists j :: 0 <= j < |ws| && InWindow(ws[j], x)
    decreases |ws|
  {
    if !InWindow(ws[0], x) {
      TilesCover(ws[1..], ws[0].endIndex, e, x);
      var j :| 0 <= j < |ws[1..]| && InWindow(ws[1..][j], x);
      assert InWindow(ws[j + 1], x);
    }
  }

  /** Position `x` lies in the window of `r`. */
  predicate InWindow(r: StackRecord, x: int)
  {
    r.startIndex <= x < r.endIndex
  }

  /** The windows of a tiling of `[s, e)` partition it: every position lies
      in exactly one of them. */
  lemma TilesPartition(ws: seq<StackRecord>, s: int, e: int, x: int)
    requires Tiles(ws, s, e) && s <= x < e
    ensures exists j :: 0 <= j < |ws| && InWindow(ws[j], x)
    ensures forall i, j :: 0 <= i < |ws| && 0 <= j < |ws| && InWindow(ws[i], x) && InWindow(ws[j], x) ==> i == j
  {
    TilesCover(ws, s, e, x);
    forall i, j | 0 <= i < j < |ws|
      ensures ws[i].endIndex <= ws[j].startIndex
    {
      assert ws == ws[..j] + ws[j..];
      TilesBefore(ws[..j], ws[j..], s, e);
      assert ws[..j][i] == ws[i];
    }
  }

  /** The windows of a tiling of `[s, e)` hold `e - s` samples between
      them. */
  lemma {:induction false} TilesSize(ws: seq<StackRecord>, s: int, e: int)
    requires Tiles(ws, s, e)
    ensures TotalSize(ws) == e - s
    decreases |ws|
  {
    if |ws| > 0 {
      TilesSize(ws[1..], ws[0].endIndex, e);
    }
  }

  function TotalSize(ws: seq<StackRecord>): int
  {
    if |ws| == 0 then 0 else Size(ws[0]) + TotalSize(ws[1..])
  }

  /** A bound on the work left for a record: a window of `n > 0` samples
      yields at most `2n - 1` nodes. */
  function Work(r: StackRecord): nat
  {
    if Size(r) <= 0 then 1 else 2 * Size(r) - 1
  }

  function StackWork(stack: seq<StackRecord>): nat
  {
    if |stack| == 0 then 0 else Work(stack[0]) + StackWork(stack[1..])
  }

  /** The record of a pending node: its window lies in the index array, its
      parent is a node already added (or -1 for the root), its depth is
      within the limit, its constant-feature count is a feature count, and a
      non-root window holds at least `minSamplesInALeaf` samples. */
  predicate Pending(r: StackRecord, nodeCount: int, N: int, maxDepth: int, F: int, minSamplesInALeaf: int)
  {
    0 <= r.startIndex <= r.endIndex <= N && r.parentNodeIndex < nodeCount
    && 0 <= r.nodeDepth <= maxDepth
    && 0 <= r.numberOfConstantFeatures <= F
    && (r.parentNodeIndex >= 0 ==> Size(r) >= minSamplesInALeaf)
  }

  /** Leaf entry `entry` of the tree belongs to the record `r`: it names a
      node marked leaf, and holds the class counts of `r`'s window of `a`. */
  predicate Stored(nodes: seq<Node>, table: seq<(int, seq<int>)>, a: seq<int>, labels: seq<real>, K: nat,
                   r: StackRecord, entry: int, maxDepth: int, minSamplesInALeaf: int)
  {
    0 <= r.startIndex <= r.endIndex <= |a| && 0 <= r.nodeDepth <= maxDepth
    && (r.parentNodeIndex >= 0 ==> Size(r) >= minSamplesInALeaf)
    && 0 <= entry < |table|
    && 0 <= table[entry].0 < |nodes| && nodes[table[entry].0].isLeaf
    && table[entry].1 == ClassCounts(a[r.startIndex..r.endIndex], labels, K)
  }

  /** Changing the index array to the right of `s` keeps the leaves that end
      by `s`. */
  lemma StoredPrefix(nodes: seq<Node>, table: seq<(int, seq<int>)>, a: seq<int>, a': seq<int>, labels: seq<real>, K: nat,
                     r: StackRecord, entry: int, maxDepth: int, minSamplesInALeaf: int, s: int)
    requires Stored(nodes, table, a, labels, K, r, entry, maxDepth, minSamplesInALeaf)
    requires r.endIndex <= s <= |a| == |a'| && a[..s] == a'[..s]
    ensures Stored(nodes, table, a', labels, K, r, entry, maxDepth, minSamplesInALeaf)
  {
    assert a[r.startIndex..r.endIndex] == a[..s][r.startIndex..r.endIndex];
    assert a'[r.startIndex..r.endIndex] == a'[..s][r.startIndex..r.endIndex];
  }

  /** Every node of `nodes` marked leaf is still one in `nodes'`, which
      extends it. */
  predicate KeepsLeaves(nodes: seq<Node>, nodes': seq<Node>)
  {
    |nodes| <= |nodes'| && forall i :: 0 <= i < |nodes| && nodes[i].isLeaf ==> nodes'[i].isLeaf
  }

  /** Adding a node only rewires the parent's child, so no leaf is lost. */
  lemma AddNodeKeepsLeaves(nodes: seq<Node>, nodes': seq<Node>, parent: int, isLeft: bool, index: int)
    requires |nodes'| == |nodes| + 1
    requires parent < 0 ==> nodes'[..|nodes|] == nodes
    requires parent >= 0 ==> parent < |nodes| && nodes'[..|nodes|] == nodes[parent := WithChild(nodes[parent], isLeft, index)]
    ensures KeepsLeaves(nodes, nodes')
  {
    forall i | 0 <= i < |nodes| && nodes[i].isLeaf
      ensures nodes'[i].isLeaf
    {
      assert nodes'[i] == nodes'[..|nodes|][i];
    }
  }

  /** The larger of a depth so far and a new depth. */
  function Deeper(maxDepthSoFar: int, nodeDepth: int): (d: int)
    ensures d >= maxDepthSoFar && d >= nodeDepth && (d == maxDepthSoFar || d == nodeDepth)
  {
    if nodeDepth > maxDepthSoFar then nodeDepth else maxDepthSoFar
  }

  /** The depth `d` reached so far is the depth of a leaf already made, or
      some pending record lies deeper; -1 means nothing was visited yet. */
  ghost predicate Reached(stack: seq<StackRecord>, leaves: seq<StackRecord>, d: int)
  {
    d < 0
    || (exists j :: 0 <= j < |leaves| && leaves[j].nodeDepth == d)
    || (exists j :: 0 <= j < |stack| && stack[j].nodeDepth > d)
  }

  /** Making the top record a leaf keeps the deepest depth reached. */
  lemma {:induction false} ReachedLeaf(stack: seq<StackRecord>, leaves: seq<StackRecord>, d: int)
    requires Reached(stack, leaves, d) && |stack| > 0 && stack[0].nodeDepth >= 0
    ensures Reached(stack[1..], leaves + [stack[0]], Deeper(d, stack[0].nodeDepth))
  {
    var d', leaves' := Deeper(d, stack[0].nodeDepth), leaves + [stack[0]];
    if stack[0].nodeDepth >= d {
      assert leaves'[|leaves|].nodeDepth == d';
    } else if j :| 0 <= j < |leaves| && leaves[j].nodeDepth == d {
      assert leaves'[j].nodeDepth == d';
    } else {
      var j :| 0 <= j < |stack| && stack[j].nodeDepth > d;
      assert stack[1..][j - 1].nodeDepth > d';
    }
  }

  /** Splitting the top record, whose children lie one level deeper, keeps
      the deepest depth reached. */
  lemma {:induction false} ReachedSplit(stack: seq<StackRecord>, leaves: seq<StackRecord>, d: int,
                                        left: StackRecord, right: StackRecord)
    requires Reached(stack, leaves, d) && |stack| > 0 && stack[0].nodeDepth >= 0 && left.nodeDepth == stack[0].nodeDepth + 1
    ensures Reached([left, right] + stack[1..], leaves, Deeper(d, stack[0].nodeDepth))
  {
    var d', stack' := Deeper(d, stack[0].nodeDepth), [left, right] + stack[1..];
    if stack[0].nodeDepth >= d {
      assert stack'[0].nodeDepth > d';
    } else if j :| 0 <= j < |leaves| && leaves[j].nodeDepth == d {
      assert leaves[j].nodeDepth == d';
    } else {
      var j :| 0 <= j < |stack| && stack[j].nodeDepth > d;
      assert stack'[j + 1].nodeDepth > d';
    }
  }

  class DepthFirstBuilder {
    const minSamplesInANode: int
    const minSamplesInALeaf: int
    const maxDepth: int
    const splitter: Splitter
    const minImpurity: real

    constructor(minSamplesInALeaf: int, minSamplesInANode: int, maxDepth: int, splitter: Splitter)
      ensures this.minSamplesInALeaf == minSamplesInALeaf && this.minSamplesInANode == minSamplesInANode
      ensures this.maxDepth == maxDepth && this.splitter == splitter
      ensures minImpurity == MinImpurity
    {
      this.minSamplesInALeaf := minSamplesInALeaf;
      this.minSamplesInANode := minSamplesInANode;
      this.maxDepth := maxDepth;
      this.splitter := splitter;
      minImpurity := MinImpurity;
    }

    /** The node of `r`, whose impurity is `impurity`, becomes a leaf without
        a split search: it is at the depth limit, has fewer samples than a
        split node needs or than two leaves need, or is already pure enough. */
    predicate StopsEarly(r: StackRecord, impurity: real)
      reads this
    {
      r.nodeDepth >= maxDepth || Size(r) < minSamplesInANode || Size(r) < 2 * minSamplesInALeaf
      || impurity <= minImpurity
    }

    /** The impurity the builder uses for `r` given the index array `a`: the
        root's is computed from its window, the others' come from their
        parent's split. */
    ghost function ImpurityOf(r: StackRecord, a: seq<int>): real
      reads this, splitter, splitter.criterion
    {
      var labels, K := splitter.criterion.labels, splitter.criterion.numberOfClasses;
      if r.parentNodeIndex < 0 && 0 <= r.startIndex < r.endIndex <= |a|
         && Labelled(a[r.startIndex..r.endIndex], labels, K) then
        ClassCountsSum(a[r.startIndex..r.endIndex], labels, K);
        Apply(splitter.criterion.rule, ClassCounts(a[r.startIndex..r.endIndex], labels, K))
      else r.impurity
    }

    /** The parameters the tree models check before building: at least one
        sample per node and per leaf, and room for the root; the splitter
        keeps leaves as large as the builder does. */
    ghost predicate Settings()
      reads this, splitter
    {
      minSamplesInANode >= 1 && minSamplesInALeaf >= 1 && maxDepth >= 0
      && splitter.minSamplesInALeaf == minSamplesInALeaf
    }

    /** Makes `r`'s window the splitter's node and decides whether it is a
        leaf; if not, searches it for the best split, which reorders only
        the window. */
    method Decide(r: StackRecord) returns (isLeaf: bool, sp: SplitRecord, constants: int)
      modifies splitter, splitter.criterion, splitter.sampleIndices, splitter.featureIndices
      requires Settings() && splitter.Valid()
      requires Pending(r, r.parentNodeIndex + 1, splitter.sampleIndices.Length, maxDepth, splitter.numberOfFeatures, minSamplesInALeaf)
      ensures splitter.NodeOk() && splitter.startIndex == r.startIndex && splitter.endIndex == r.endIndex
      ensures Permuted(old(splitter.sampleIndices[..]), splitter.sampleIndices[..], r.startIndex, r.endIndex)
      ensures isLeaf == (StopsEarly(r, ImpurityOf(r, old(splitter.sampleIndices[..]))) || sp.splitSampleIndex >= r.endIndex)
      ensures StopsEarly(r, ImpurityOf(r, old(splitter.sampleIndices[..]))) ==> sp == DefaultSplit()
      ensures !isLeaf ==>
                r.nodeDepth < maxDepth
                && splitter.Separates(splitter.sampleIndices[r.startIndex..r.endIndex], r.startIndex, sp)
                && Partitioned(splitter.data, splitter.sampleIndices[..], r.startIndex, r.endIndex, sp)
      ensures 0 <= constants <= splitter.numberOfFeatures
    {
      ghost var a0 := splitter.sampleIndices[..];
      var s, e := r.startIndex, r.endIndex;
      splitter.ResetToThisNode(s, e);
      assert splitter.sampleIndices[..] == a0;
      var nodeSize := e - s;
      isLeaf := r.nodeDepth >= maxDepth || nodeSize < minSamplesInANode || nodeSize < 2 * minSamplesInALeaf;
      var impurity := r.impurity;
      if r.parentNodeIndex < 0 && s < e {
        impurity := splitter.CalculateNodeImpurity();
      }
      isLeaf := isLeaf || impurity <= minImpurity;
      sp := DefaultSplit();
      constants := r.numberOfConstantFeatures;
      if !isLeaf {
        ghost var visited, scanned, at;
        sp, constants, visited, scanned, at := splitter.SplitNode(impurity, constants);
        isLeaf := isLeaf || sp.splitSampleIndex >= e;
      }
    }

    /** The value part of the state of a build between two visits. The
        windows of the leaves made so far, followed by the windows on the
        stack (top first), tile the whole index array `a`; so the stack's
        windows come after every leaf's. Each leaf has an entry of the leaf
        table, appended after the entries `table0` the tree had before, that
        names a leaf node and holds the class counts of its window. Every
        pending record has a parent that is already a node, a depth within
        the limit and, below the root, at least `minSamplesInALeaf` samples.
        `maxDepthSoFar` bounds the depth of every leaf and is -1 only before
        the root is visited. */
    ghost predicate Progress(nodes: seq<Node>, table: seq<(int, seq<int>)>, a: seq<int>, labels: seq<real>, K: nat, F: int,
                             stack: seq<StackRecord>, leaves: seq<StackRecord>, table0: seq<(int, seq<int>)>,
                             maxDepthSoFar: int)
      reads this
    {
      Tiles(leaves + stack, 0, |a|)
      && |table| == |table0| + |leaves| && table[..|table0|] == table0
      && (forall j :: 0 <= j < |stack| ==> Pending(stack[j], |nodes|, |a|, maxDepth, F, minSamplesInALeaf))
      && (forall j :: 0 <= j < |leaves| ==>
            Stored(nodes, table, a, labels, K, leaves[j], |table0| + j, maxDepth, minSamplesInALeaf))
      && -1 <= maxDepthSoFar <= maxDepth
      && (forall j :: 0 <= j < |leaves| ==> leaves[j].nodeDepth <= maxDepthSoFar)
      && (maxDepthSoFar < 0 ==> |stack| > 0)
      && Reached(stack, leaves, maxDepthSoFar)
    }

    /** The state of a build between two visits: the splitter and the tree
        are valid, the index array is a reordering of the one the build
        started with, and the value part holds. */
    ghost predicate Building(tree: Tree<seq<int>>, stack: seq<StackRecord>, leaves: seq<StackRecord>,
                             table0: seq<(int, seq<int>)>, a0: multiset<int>, maxDepthSoFar: int)
      reads this, splitter, splitter.criterion, splitter.sampleIndices, splitter.featureIndices, tree
    {
      Settings() && splitter.Valid() && tree.Valid()
      && multiset(splitter.sampleIndices[..]) == a0
      && Progress(tree.nodes, tree.leafNodeToLabel, splitter.sampleIndices[..], splitter.criterion.labels,
                  splitter.criterion.numberOfClasses, splitter.numberOfFeatures, stack, leaves, table0, maxDepthSoFar)
    }

    /** Once the stack is empty the leaves tile the whole array, and the
        depth reached is that of one of them. */
    lemma Finished(nodes: seq<Node>, table: seq<(int, seq<int>)>, a: seq<int>, labels: seq<real>, K: nat, F: int,
                   leaves: seq<StackRecord>, table0: seq<(int, seq<int>)>, maxDepthSoFar: int)
      requires Progress(nodes, table, a, labels, K, F, [], leaves, table0, maxDepthSoFar)
      ensures Tiles(leaves, 0, |a|) && 0 <= maxDepthSoFar <= maxDepth
      ensures exists j :: 0 <= j < |leaves| && leaves[j].nodeDepth == maxDepthSoFar
    {
      assert leaves + [] == leaves;
    }

    /** Reordering the array from the top window on keeps the leaves. */
    lemma Reordered(nodes: seq<Node>, table: seq<(int, seq<int>)>, a: seq<int>, a': seq<int>, labels: seq<real>, K: nat, F: int,
                    stack: seq<StackRecord>, leaves: seq<StackRecord>, table0: seq<(int, seq<int>)>, maxDepthSoFar: int)
      requires Progress(nodes, table, a, labels, K, F, stack, leaves, table0, maxDepthSoFar) && |stack| > 0
      requires |a'| == |a| && 0 <= stack[0].startIndex <= |a| && a'[..stack[0].startIndex] == a[..stack[0].startIndex]
      ensures Progress(nodes, table, a', labels, K, F, stack, leaves, table0, maxDepthSoFar)
    {
      TilesBefore(leaves, stack, 0, |a|);
      forall j | 0 <= j < |leaves|
        ensures Stored(nodes, table, a', labels, K, leaves[j], |table0| + j, maxDepth, minSamplesInALeaf)
      {
        StoredPrefix(nodes, table, a, a', labels, K, leaves[j], |table0| + j, maxDepth, minSamplesInALeaf, stack[0].startIndex);
      }
    }

    /** Making the top record a leaf: its node is appended and marked leaf,
        its counts appended to the table, and it moves from the stack to the
        leaves. */
    lemma LeafStep(nodes: seq<Node>, table: seq<(int, seq<int>)>, a: seq<int>, labels: seq<real>, K: nat, F: int,
                   stack: seq<StackRecord>, leaves: seq<StackRecord>, table0: seq<(int, seq<int>)>, maxDepthSoFar: int,
                   nodes': seq<Node>, table': seq<(int, seq<int>)>)
      requires Progress(nodes, table, a, labels, K, F, stack, leaves, table0, maxDepthSoFar) && |stack| > 0
      requires KeepsLeaves(nodes, nodes') && |nodes'| == |nodes| + 1 && nodes'[|nodes|].isLeaf
      requires table' == table + [(|nodes|, ClassCounts(a[stack[0].startIndex..stack[0].endIndex], labels, K))]
      ensures Progress(nodes', table', a, labels, K, F, stack[1..], leaves + [stack[0]], table0,
                       Deeper(maxDepthSoFar, stack[0].nodeDepth))
    {
      assert (leaves + [stack[0]]) + stack[1..] == leaves + stack;
      assert table'[..|table0|] == table[..|table0|];
      var leaves' := leaves + [stack[0]];
      ReachedLeaf(stack, leaves, maxDepthSoFar);
      forall j | 0 <= j < |leaves'|
        ensures Stored(nodes', table', a, labels, K, leaves'[j], |table0| + j, maxDepth, minSamplesInALeaf)
      {
        if j < |leaves| {
          assert Stored(nodes, table, a, labels, K, leaves[j], |table0| + j, maxDepth, minSamplesInALeaf);
        }
      }
      forall j | 0 <= j < |stack| - 1
        ensures Pending(stack[1..][j], |nodes'|, |a|, maxDepth, F, minSamplesInALeaf)
      {
        assert stack[1..][j] == stack[j + 1];
      }
    }

    /** Splitting the top record: its node is appended, and its two halves
        replace it on the stack, left on top. */
    lemma SplitStep(nodes: seq<Node>, table: seq<(int, seq<int>)>, a: seq<int>, labels: seq<real>, K: nat, F: int,
                    stack: seq<StackRecord>, leaves: seq<StackRecord>, table0: seq<(int, seq<int>)>, maxDepthSoFar: int,
                    nodes': seq<Node>, left: StackRecord, right: StackRecord)
      requires Progress(nodes, table, a, labels, K, F, stack, leaves, table0, maxDepthSoFar) && |stack| > 0
      requires KeepsLeaves(nodes, nodes') && |nodes'| == |nodes| + 1
      requires left.startIndex == stack[0].startIndex && left.endIndex == right.startIndex
      requires right.endIndex == stack[0].endIndex && left.nodeDepth == stack[0].nodeDepth + 1
      requires Pending(left, |nodes'|, |a|, maxDepth, F, minSamplesInALeaf)
      requires Pending(right, |nodes'|, |a|, maxDepth, F, minSamplesInALeaf)
      ensures Progress(nodes', table, a, labels, K, F, [left, right] + stack[1..], leaves, table0,
                       Deeper(maxDepthSoFar, stack[0].nodeDepth))
    {
      var stack' := [left, right] + stack[1..];
      ReachedSplit(stack, leaves, maxDepthSoFar, left, right);
      assert stack == [stack[0]] + stack[1..];
      assert leaves + [stack[0]] + stack[1..] == leaves + stack;
      TilesRefine(leaves, stack[0], stack[1..], left, right, 0, |a|);
      assert leaves + [left, right] + stack[1..] == leaves + stack';
      forall j | 0 <= j < |leaves|
        ensures Stored(nodes', table, a, labels, K, leaves[j], |table0| + j, maxDepth, minSamplesInALeaf)
      {
        assert Stored(nodes, table, a, labels, K, leaves[j], |table0| + j, maxDepth, minSamplesInALeaf);
      }
      forall j | 0 <= j < |stack'|
        ensures Pending(stack'[j], |nodes'|, |a|, maxDepth, F, minSamplesInALeaf)
      {
        if j >= 2 {
          assert stack'[j] == stack[j - 1];
        }
      }
    }

    /** The first half of a turn of the build loop: the top record's
        window becomes the splitter's node, is searched for a split unless
        it stops early (reordering only that window), and gets a new node
        wired to its parent. A split, if found, leaves two windows large
        enough for leaves below the depth limit. */
    method Open(tree: Tree<seq<int>>, stack: seq<StackRecord>, ghost leaves: seq<StackRecord>,
                ghost table0: seq<(int, seq<int>)>, ghost a0: multiset<int>, maxDepthSoFar: int)
      returns (isLeaf: bool, sp: SplitRecord, constants: int, currentNodeIndex: int, ghost nodes: seq<Node>)
      modifies tree, splitter, splitter.criterion, splitter.sampleIndices, splitter.featureIndices
      requires Building(tree, stack, leaves, table0, a0, maxDepthSoFar) && |stack| > 0
      ensures Settings() && splitter.Valid() && tree.Valid() && multiset(splitter.sampleIndices[..]) == a0
      ensures Progress(nodes, tree.leafNodeToLabel, splitter.sampleIndices[..], splitter.criterion.labels,
                       splitter.criterion.numberOfClasses, splitter.numberOfFeatures, stack, leaves, table0, maxDepthSoFar)
      ensures KeepsLeaves(nodes, tree.nodes) && |tree.nodes| == |nodes| + 1 && currentNodeIndex == |nodes|
      ensures splitter.NodeOk() && splitter.startIndex == stack[0].startIndex && splitter.endIndex == stack[0].endIndex
      ensures !isLeaf ==>
                stack[0].nodeDepth < maxDepth && 0 <= constants <= splitter.numberOfFeatures
                && sp.splitSampleIndex - stack[0].startIndex >= minSamplesInALeaf
                && stack[0].endIndex - sp.splitSampleIndex >= minSamplesInALeaf
    {
      var r := stack[0];
      ghost var labels, K, F := splitter.criterion.labels, splitter.criterion.numberOfClasses, splitter.numberOfFeatures;
      ghost var a := splitter.sampleIndices[..];
      ghost var table := tree.leafNodeToLabel;
      nodes := tree.nodes;
      assert Pending(r, |nodes|, |a|, maxDepth, F, minSamplesInALeaf);
      isLeaf, sp, constants := Decide(r);
      ghost var a' := splitter.sampleIndices[..];
      PermutedWhole(a, a', r.startIndex, r.endIndex);
      Reordered(nodes, table, a, a', labels, K, F, stack, leaves, table0, maxDepthSoFar);
      currentNodeIndex := tree.AddNode(r.parentNodeIndex, r.isLeft, sp.featureIndexToSplit, sp.threshold);
      AddNodeKeepsLeaves(nodes, tree.nodes, r.parentNodeIndex, r.isLeft, currentNodeIndex);
    }

    /** The leaf half of a turn of the build loop: the node just added for
        the top record is marked leaf and gets the class counts of the
        record's window, and the record moves from the stack to the leaves. */
    method StoreLeaf(tree: Tree<seq<int>>, currentNodeIndex: int, stack: seq<StackRecord>, ghost leaves: seq<StackRecord>,
                     ghost table0: seq<(int, seq<int>)>, ghost a0: multiset<int>, maxDepthSoFar: int, ghost nodes: seq<Node>)
      modifies tree
      requires Settings() && splitter.Valid() && tree.Valid() && multiset(splitter.sampleIndices[..]) == a0
      requires |stack| > 0
      requires Progress(nodes, tree.leafNodeToLabel, splitter.sampleIndices[..], splitter.criterion.labels,
                        splitter.criterion.numberOfClasses, splitter.numberOfFeatures, stack, leaves, table0, maxDepthSoFar)
      requires KeepsLeaves(nodes, tree.nodes) && |tree.nodes| == |nodes| + 1 && currentNodeIndex == |nodes|
      requires splitter.NodeOk() && splitter.startIndex == stack[0].startIndex && splitter.endIndex == stack[0].endIndex
      requires forall v: seq<int> :: |v| == splitter.criterion.numberOfClasses ==> tree.admits(v)
      ensures Building(tree, stack[1..], leaves + [stack[0]], table0, a0, Deeper(maxDepthSoFar, stack[0].nodeDepth))
    {
      var labelsCountOfThisNode := splitter.criterion.NodeValue();
      ghost var nodes1 := tree.nodes;
      ghost var table := tree.leafNodeToLabel;
      tree.AddLeaf(currentNodeIndex, labelsCountOfThisNode);
      assert KeepsLeaves(nodes1, tree.nodes);
      LeafStep(nodes, table, splitter.sampleIndices[..], splitter.criterion.labels, splitter.criterion.numberOfClasses,
               splitter.numberOfFeatures, stack, leaves, table0, maxDepthSoFar, tree.nodes, tree.leafNodeToLabel);
    }

    /** The split half of a turn of the build loop: the two halves of the
        top record's window replace it on the stack, left on top. */
    lemma SplitBuilding(tree: Tree<seq<int>>, stack: seq<StackRecord>, leaves: seq<StackRecord>,
                        table0: seq<(int, seq<int>)>, a0: multiset<int>, maxDepthSoFar: int, nodes: seq<Node>,
                        left: StackRecord, right: StackRecord)
      requires Settings() && splitter.Valid() && tree.Valid() && multiset(splitter.sampleIndices[..]) == a0
      requires |stack| > 0
      requires Progress(nodes, tree.leafNodeToLabel, splitter.sampleIndices[..], splitter.criterion.labels,
                        splitter.criterion.numberOfClasses, splitter.numberOfFeatures, stack, leaves, table0, maxDepthSoFar)
      requires KeepsLeaves(nodes, tree.nodes) && |tree.nodes| == |nodes| + 1
      requires left.startIndex == stack[0].startIndex && left.endIndex == right.startIndex
      requires right.endIndex == stack[0].endIndex && left.nodeDepth == stack[0].nodeDepth + 1
      requires Pending(left, |tree.nodes|, splitter.sampleIndices.Length, maxDepth, splitter.numberOfFeatures, minSamplesInALeaf)
      requires Pending(right, |tree.nodes|, splitter.sampleIndices.Length, maxDepth, splitter.numberOfFeatures, minSamplesInALeaf)
      ensures Building(tree, [left, right] + stack[1..], leaves, table0, a0, Deeper(maxDepthSoFar, stack[0].nodeDepth))
    {
      SplitStep(nodes, tree.leafNodeToLabel, splitter.sampleIndices[..], splitter.criterion.labels,
                splitter.criterion.numberOfClasses, splitter.numberOfFeatures, stack, leaves, table0, maxDepthSoFar,
                tree.nodes, left, right);
    }

    /** One turn of the build loop: pops the top record, adds its node to
        the tree, and either makes it a leaf holding its class counts or
        pushes its two children, the left one on top. */
    method Visit(tree: Tree<seq<int>>, stack: seq<StackRecord>, ghost leaves: seq<StackRecord>,
                 ghost table0: seq<(int, seq<int>)>, ghost a0: multiset<int>, maxDepthSoFar: int)
      returns (stack': seq<StackRecord>, ghost leaves': seq<StackRecord>, maxDepthSoFar': int)
      modifies tree, splitter, splitter.criterion, splitter.sampleIndices, splitter.featureIndices
      requires Building(tree, stack, leaves, table0, a0, maxDepthSoFar) && |stack| > 0
      requires forall v: seq<int> :: |v| == splitter.criterion.numberOfClasses ==> tree.admits(v)
      ensures Building(tree, stack', leaves', table0, a0, maxDepthSoFar')
      ensures StackWork(stack') < StackWork(stack)
    {
      var r := stack[0];
      var isLeaf, sp, constants, currentNodeIndex, nodes := Open(tree, stack, leaves, table0, a0, maxDepthSoFar);
      maxDepthSoFar' := Deeper(maxDepthSoFar, r.nodeDepth);
      if isLeaf {
        StoreLeaf(tree, currentNodeIndex, stack, leaves, table0, a0, maxDepthSoFar, nodes);
        stack', leaves' := stack[1..], leaves + [r];
      } else {
        var p := sp.splitSampleIndex;
        var left := StackRecord(r.startIndex, p, r.nodeDepth + 1, true, sp.impurityLeft, constants, currentNodeIndex);
        var right := StackRecord(p, r.endIndex, r.nodeDepth + 1, false, sp.impurityRight, constants, currentNodeIndex);
        SplitBuilding(tree, stack, leaves, table0, a0, maxDepthSoFar, nodes, left, right);
        stack', leaves' := [left, right] + stack[1..], leaves;
        assert stack'[2..] == stack[1..];
      }
    }

    /** Builds the tree of the splitter's samples depth first, from a root
        record covering all of them. The index array ends up a reordering of
        the original, the windows of the leaves tile it, every leaf has a
        tree entry (after the entries the tree already had) naming a leaf node
        and holding the class counts of its window, and the depth recorded in
        the tree is the largest leaf depth seen, within `maxDepth`. */
    method Build(tree: Tree<seq<int>>) returns (ghost leaves: seq<StackRecord>)
      modifies tree, splitter, splitter.criterion, splitter.sampleIndices, splitter.featureIndices
      requires Settings() && splitter.Valid() && tree.Valid()
      requires forall v: seq<int> :: |v| == splitter.criterion.numberOfClasses ==> tree.admits(v)
      ensures tree.Valid()
      ensures multiset(splitter.sampleIndices[..]) == old(multiset(splitter.sampleIndices[..]))
      ensures Tiles(leaves, 0, splitter.sampleIndices.Length)
      ensures |tree.leafNodeToLabel| == |old(tree.leafNodeToLabel)| + |leaves|
      ensures tree.leafNodeToLabel[..|old(tree.leafNodeToLabel)|] == old(tree.leafNodeToLabel)
      ensures forall j :: 0 <= j < |leaves| ==>
                Stored(tree.nodes, tree.leafNodeToLabel, splitter.sampleIndices[..], splitter.criterion.labels,
                       splitter.criterion.numberOfClasses, leaves[j], |old(tree.leafNodeToLabel)| + j, maxDepth, minSamplesInALeaf)
      ensures 0 <= tree.maxDepthOfThisTree <= maxDepth
      ensures forall j :: 0 <= j < |leaves| ==> leaves[j].nodeDepth <= tree.maxDepthOfThisTree
      ensures exists j :: 0 <= j < |leaves| && leaves[j].nodeDepth == tree.maxDepthOfThisTree
    {
      var numberOfData := splitter.sampleIndices.Length;
      var maxDepthSoFar := -1;
      var recordStack := [StackRecord(0, numberOfData, 0, false, MaxDouble, 0, -1)];
      leaves := [];
      ghost var table0 := tree.leafNodeToLabel;
      ghost var a0 := multiset(splitter.sampleIndices[..]);
      assert [] + recordStack == recordStack;
      assert tree.leafNodeToLabel[..|table0|] == table0;
      while |recordStack| > 0
        invariant Building(tree, recordStack, leaves, table0, a0, maxDepthSoFar)
        decreases StackWork(recordStack)
      {
        recordStack, leaves, maxDepthSoFar := Visit(tree, recordStack, leaves, table0, a0, maxDepthSoFar);
      }
      Finished(tree.nodes, tree.leafNodeToLabel, splitter.sampleIndices[..], splitter.criterion.labels,
               splitter.criterion.numberOfClasses, splitter.numberOfFeatures, leaves, table0, maxDepthSoFar);
      tree.maxDepthOfThisTree := maxDepthSoFar;
    }
  }
}
