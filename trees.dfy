/**
 * The decision tree: an append-only vector of nodes wired parent to child,
 * and an association list from leaf node indices to leaf payloads. One class
 * covers the three trees of the library, which differ only in the payload
 * they store and the payloads `addLeaf` accepts: the classification tree
 * keeps a count vector of `numberOfClasses` entries per leaf, the regression
 * tree a single value, and the older all-in-one tree a count vector whose
 * length must equal its own class count.
 */
module Trees {
  import opened Records
  import opened Outcome

  datatype Node = Node(
    leftChildIndex: int,
    rightChildIndex: int,
    featureIndex: int,
    threshold: real,
    isLeaf: bool)

  /** A default-constructed node: no children, no feature, the lowest
      threshold, not a leaf. */
  function DefaultNode(): (n: Node)
    ensures n.leftChildIndex == -1 && n.rightChildIndex == -1
    ensures n.featureIndex == -1 && n.threshold == -MaxDouble && !n.isLeaf
  {
    Node(-1, -1, -1, -MaxDouble, false)
  }

  /** The node `addNode` appends: the given split and no children yet. */
  function SplitNode(featureIndex: int, threshold: real): (n: Node)
    ensures n.leftChildIndex == -1 && n.rightChildIndex == -1 && !n.isLeaf
    ensures n.featureIndex == featureIndex && n.threshold == threshold
  {
    Node(-1, -1, featureIndex, threshold, false)
  }

  /** Node `i`'s child `c` is missing or was added after it. */
  predicate ChildOk(nodes: seq<Node>, i: int, c: int)
  {
    c == -1 || i < c < |nodes|
  }

  /** Every child comes after its parent in the node vector, so walks from
      the head always move forward. */
  ghost predicate Linked(nodes: seq<Node>)
  {
    forall i :: 0 <= i < |nodes| ==>
      ChildOk(nodes, i, nodes[i].leftChildIndex) && ChildOk(nodes, i, nodes[i].rightChildIndex)
  }

  /** The node reached from node `i` by the prediction walk for instance
      `x`: at a split node it goes to the left child when `x[f] < threshold`
      and to the right child otherwise, and it stops at the first leaf. The
      walk fails where the source would read outside the node vector or the
      instance. */
  function Reach(nodes: seq<Node>, x: seq<real>, i: int): (r: Option<int>)
    ensures r.Some? ==> 0 <= r.value < |nodes| && nodes[r.value].isLeaf
    ensures r.Some? ==> i <= r.value
    decreases |nodes| - i
  {
    if !(0 <= i < |nodes|) then None
    else if nodes[i].isLeaf then Some(i)
    else
      var f := nodes[i].featureIndex;
      if !(0 <= f < |x|) then None
      else
        var next := if x[f] < nodes[i].threshold then nodes[i].leftChildIndex else nodes[i].rightChildIndex;
        if next <= i then None else Reach(nodes, x, next)
  }

  /** The payload of the first entry of `table` with key `key`, as
      `std::find_if` finds it. */
  function Lookup<V>(table: seq<(int, V)>, key: int): (r: Option<V>)
    ensures r.Some? <==> exists j :: 0 <= j < |table| && table[j].0 == key
    ensures r.Some? ==> exists j :: 0 <= j < |table| && table[j] == (key, r.value)
                                     && forall j' :: 0 <= j' < j ==> table[j'].0 != key
  {
    if |table| == 0 then None
    else if table[0].0 == key then Some(table[0].1)
    else
      var r := Lookup(table[1..], key);
      assert forall j :: 1 <= j < |table| ==> table[j] == table[1..][j - 1];
      r
  }

  /** Appending an entry never changes the payload found for a key that
      already had one: a second `addLeaf` for the same node is invisible to
      prediction. */
  lemma {:induction false} LookupAppend<V>(table: seq<(int, V)>, key: int, k: int, v: V)
    ensures Lookup(table + [(k, v)], key)
            == if Lookup(table, key).Some? then Lookup(table, key)
               else if key == k then Some(v) else None
  {
    if |table| != 0 {
      assert (table + [(k, v)])[1..] == table[1..] + [(k, v)];
      LookupAppend(table[1..], key, k, v);
    }
  }

  const MissingLeafMessage := "cannot find the predicted data for the reached leaf"

  /** The payload kinds the three trees accept: a classification count
      vector of `numberOfClasses` entries. */
  function CountsOfLength(numberOfClasses: int): seq<int> -> bool
  {
    v => |v| == numberOfClasses
  }

  /** The regression tree accepts every value. */
  function AnyValue(): real -> bool
  {
    _ => true
  }

  class Tree<V> {
    const numberOfFeatures: int
    /** The payloads `addLeaf` accepts. */
    const admits: V -> bool
    var maxDepthOfThisTree: int
    var headNodeIndex: int
    var nodes: seq<Node>
    var nodeCount: int
    var leafNodeToLabel: seq<(int, V)>

    /** The node count is the length of the node vector, the head is a node
        or -1, children come after their parents, and every leaf entry names
        a node. */
    ghost predicate Valid()
      reads this
    {
      nodeCount == |nodes| && -1 <= headNodeIndex < |nodes| && Linked(nodes)
      && forall j :: 0 <= j < |leafNodeToLabel| ==> 0 <= leafNodeToLabel[j].0 < |nodes|
    }

    constructor(numberOfFeatures: int, admits: V -> bool)
      ensures this.numberOfFeatures == numberOfFeatures && this.admits == admits
      ensures maxDepthOfThisTree == 0 && headNodeIndex == -1 && nodes == [] && nodeCount == 0
      ensures leafNodeToLabel == []
      ensures Valid()
    {
      this.numberOfFeatures := numberOfFeatures;
      this.admits := admits;
      maxDepthOfThisTree := 0;
      headNodeIndex := -1;
      nodes := [];
      nodeCount := 0;
      leafNodeToLabel := [];
    }

    /** `reset` as the source writes it: the nodes, the leaf table, the head
        and the depth are cleared, but the node count is not, so a tree that
        had nodes is left with a count that no longer matches its nodes. */
    method ResetAsWritten()
      modifies this
      ensures nodes == [] && leafNodeToLabel == [] && headNodeIndex == -1 && maxDepthOfThisTree == 0
      ensures nodeCount == old(nodeCount)
      ensures old(nodeCount) != 0 ==> !Valid()
    {
      maxDepthOfThisTree := 0;
      headNodeIndex := -1;
      nodes := [];
      leafNodeToLabel := [];
    }

    /** `reset` with the node count cleared too: the tree is empty and valid
        again. */
    method Reset()
      modifies this
      ensures nodes == [] && leafNodeToLabel == [] && headNodeIndex == -1 && maxDepthOfThisTree == 0
      ensures nodeCount == 0
      ensures Valid()
    {
      maxDepthOfThisTree := 0;
      headNodeIndex := -1;
      nodes := [];
      nodeCount := 0;
      leafNodeToLabel := [];
    }

    /** Appends a split node and returns `nodeCount - 1` as its index. A
        negative parent makes it the head; otherwise the parent's left or
        right child becomes the new index, and no other node changes. While
        the count matches the nodes, the returned index is the new node's
        position, and validity is kept. */
    method AddNode(parentNodeIndex: int, isLeft: bool, featureIndex: int, threshold: real) returns (index: int)
      modifies this
      requires parentNodeIndex < 0 || parentNodeIndex < |nodes|
      ensures |nodes| == |old(nodes)| + 1 && nodes[|nodes| - 1] == SplitNode(featureIndex, threshold)
      ensures nodeCount == old(nodeCount) + 1 && index == nodeCount - 1
      ensures parentNodeIndex < 0 ==>
                headNodeIndex == index && nodes[..|old(nodes)|] == old(nodes)
      ensures parentNodeIndex >= 0 ==>
                headNodeIndex == old(headNodeIndex)
                && nodes[..|old(nodes)|] == old(nodes)[parentNodeIndex := WithChild(old(nodes)[parentNodeIndex], isLeft, index)]
      ensures leafNodeToLabel == old(leafNodeToLabel) && maxDepthOfThisTree == old(maxDepthOfThisTree)
      ensures old(nodeCount) == |old(nodes)| ==> index == |nodes| - 1
      ensures old(Valid()) ==> Valid()
    {
      ghost var before := nodes;
      nodes := nodes + [SplitNode(featureIndex, threshold)];
      nodeCount := nodeCount + 1;
      if parentNodeIndex < 0 {
        headNodeIndex := nodeCount - 1;
        index := headNodeIndex;
        assert nodes[..|before|] == before;
        return;
      }
      nodes := nodes[parentNodeIndex := WithChild(nodes[parentNodeIndex], isLeft, nodeCount - 1)];
      index := nodeCount - 1;
      assert nodes[..|before|] == before[parentNodeIndex := WithChild(before[parentNodeIndex], isLeft, index)];
    }

    /** Records `v` as the payload of node `nodeIndex` and marks that node,
        and only that node, a leaf. The payload must be one the tree admits. */
    method AddLeaf(nodeIndex: int, v: V)
      modifies this
      requires 0 <= nodeIndex < |nodes| && admits(v)
      ensures leafNodeToLabel == old(leafNodeToLabel) + [(nodeIndex, v)]
      ensures nodes == old(nodes)[nodeIndex := old(nodes)[nodeIndex].(isLeaf := true)]
      ensures headNodeIndex == old(headNodeIndex) && nodeCount == old(nodeCount)
      ensures maxDepthOfThisTree == old(maxDepthOfThisTree)
      ensures old(Valid()) ==> Valid()
    {
      leafNodeToLabel := leafNodeToLabel + [(nodeIndex, v)];
      nodes := nodes[nodeIndex := nodes[nodeIndex].(isLeaf := true)];
    }

    /** What `predictOne` returns for `x`: the payload of the first table
        entry of the leaf the walk from the head reaches, or an error when
        there is none. */
    function Prediction(x: seq<real>): (r: Result<V>)
      reads this
      ensures r.Success? ==>
                exists leaf :: Reach(nodes, x, headNodeIndex) == Some(leaf)
                               && Lookup(leafNodeToLabel, leaf) == Some(r.value)
    {
      match Reach(nodes, x, headNodeIndex)
      case None => Failure(MissingLeafMessage)
      case Some(leaf) =>
        match Lookup(leafNodeToLabel, leaf)
        case None => Failure(MissingLeafMessage)
        case Some(v) => Success(v)
    }

    /** Walks from the head to a leaf and looks up its payload; it changes
        nothing, so repeated calls give the same result. */
    method PredictOne(x: seq<real>) returns (r: Result<V>)
      requires Valid() && |x| == numberOfFeatures
      ensures r == Prediction(x)
    {
      var leafIndex := headNodeIndex;
      while 0 <= leafIndex < |nodes| && !nodes[leafIndex].isLeaf
        invariant -1 <= leafIndex < |nodes|
        invariant Reach(nodes, x, leafIndex) == Reach(nodes, x, headNodeIndex)
        decreases |nodes| - leafIndex
      {
        var splitFeatIndex := nodes[leafIndex].featureIndex;
        if !(0 <= splitFeatIndex < |x|) {
          return Failure(MissingLeafMessage);
        }
        leafIndex := if x[splitFeatIndex] < nodes[leafIndex].threshold
                     then nodes[leafIndex].leftChildIndex else nodes[leafIndex].rightChildIndex;
        if leafIndex == -1 {
          return Failure(MissingLeafMessage);
        }
      }
      if leafIndex == -1 {
        return Failure(MissingLeafMessage);
      }
      var found := Lookup(leafNodeToLabel, leafIndex);
      if found.None? {
        return Failure(MissingLeafMessage);
      }
      r := Success(found.value);
    }
  }

  /** Node `n` with its left or right child set to `c`. */
  function WithChild(n: Node, isLeft: bool, c: int): (m: Node)
    ensures isLeft ==> m == n.(leftChildIndex := c)
    ensures !isLeft ==> m == n.(rightChildIndex := c)
  {
    if isLeft then n.(leftChildIndex := c) else n.(rightChildIndex := c)
  }

  /** The older all-in-one tree as its constructor writes it: no features
      and no classes, so `addLeaf` admits only empty count vectors and
      `predictOne` only empty instances. */
  method NewLegacyTreeAsWritten() returns (t: Tree<seq<int>>)
    ensures fresh(t) && t.Valid() && t.nodes == [] && t.leafNodeToLabel == []
    ensures t.numberOfFeatures == 0
    ensures forall v :: t.admits(v) <==> |v| == 0
  {
    t := new Tree(0, CountsOfLength(0));
  }

  /** The older tree built for the data it is trained on: leaves admit count
      vectors with one entry per class. */
  method NewLegacyTree(numberOfFeatures: int, numberOfClasses: int) returns (t: Tree<seq<int>>)
    ensures fresh(t) && t.Valid() && t.nodes == [] && t.leafNodeToLabel == []
    ensures t.numberOfFeatures == numberOfFeatures
    ensures forall v :: t.admits(v) <==> |v| == numberOfClasses
  {
    t := new Tree(numberOfFeatures, CountsOfLength(numberOfClasses));
  }

  /** With at least one class, the count vector of any node has an entry per
      class, which the tree as written refuses and the corrected tree
      accepts. */
  lemma LegacyLeafRefused(numberOfClasses: int, counts: seq<int>)
    requires numberOfClasses >= 1 && |counts| == numberOfClasses
    ensures !CountsOfLength(0)(counts) && CountsOfLength(numberOfClasses)(counts)
  {
  }

  /** After `reset` as written on a tree with one node, the next head node is
      given index 1 although it is stored at position 0. */
  method StaleIndexAfterReset() returns (index: int, position: int)
    ensures index == 1 && position == 0
  {
    var t := new Tree<real>(1, AnyValue());
    var first := t.AddNode(-1, false, 0, 0.5);
    t.ResetAsWritten();
    index := t.AddNode(-1, false, 0, 0.5);
    position := |t.nodes| - 1;
  }

  /** With the corrected `reset`, the next head node's index is its
      position. */
  method FreshIndexAfterReset() returns (index: int, position: int)
    ensures index == 0 && position == 0
  {
    var t := new Tree<real>(1, AnyValue());
    var first := t.AddNode(-1, false, 0, 0.5);
    t.Reset();
    index := t.AddNode(-1, false, 0, 0.5);
    position := |t.nodes| - 1;
  }
}
