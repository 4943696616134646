/**
 * The flat node array of a fitted tree (one record per node, children
 * referenced by index into the same array), the walk that takes one sample
 * from the root to a leaf, the batch semantics built from it, and the two
 * summaries a predictor reports (leaf count and maximum depth).
 */
module Tree {

  /** numpy's uint8: bin codes and bin thresholds. */
  type U8 = x: int | 0 <= x < 0x100

  /** numpy's uint32: counts, feature indices, child indices and depths. */
  type U32 = x: int | 0 <= x < 0x1_0000_0000

  /**
   * One node record. For an internal node `featureIdx`, `binThreshold`,
   * `threshold`, `left` and `right` describe the split; for a leaf, `value`
   * is the output vector copied into a sample's output row.
   */
  datatype Node = Node(
    isLeaf: bool,
    value: seq<real>,
    count: U32,
    featureIdx: U32,
    binThreshold: U8,
    threshold: real,
    left: U32,
    right: U32,
    gain: real,
    depth: U32)

  /** One input sample: a row of bin codes, or a row of raw numeric values. */
  datatype Sample = Binned(bins: seq<U8>) | Numeric(values: seq<real>)

  function Width(x: Sample): nat
  {
    match x
    case Binned(b) => |b|
    case Numeric(v) => |v|
  }

  /**
   * The arena invariant: the root is index 0, and every internal node's
   * children are valid indices greater than the node's own index.
   */
  predicate Linked(nodes: seq<Node>)
  {
    && |nodes| > 0
    && forall i :: 0 <= i < |nodes| && !nodes[i].isLeaf ==>
         i < nodes[i].left < |nodes| && i < nodes[i].right < |nodes|
  }

  /** Every split reads a feature that a row of `nFeatures` columns has. */
  predicate FeaturesBelow(nodes: seq<Node>, nFeatures: nat)
  {
    forall i :: 0 <= i < |nodes| && !nodes[i].isLeaf ==> nodes[i].featureIdx < nFeatures
  }

  /** Every node's value vector has `predictionDim` entries. */
  predicate ValuesOfWidth(nodes: seq<Node>, predictionDim: nat)
  {
    forall i :: 0 <= i < |nodes| ==> |nodes[i].value| == predictionDim
  }

  predicate WellFormed(nodes: seq<Node>, nFeatures: nat, predictionDim: nat)
  {
    Linked(nodes) && FeaturesBelow(nodes, nFeatures) && ValuesOfWidth(nodes, predictionDim)
  }

  /** The tree can be walked with sample `x`. */
  predicate Walkable(nodes: seq<Node>, x: Sample)
  {
    Linked(nodes) && FeaturesBelow(nodes, Width(x))
  }

  /**
   * The split rule, `<=` in both modes: a binned sample is compared with the
   * bin threshold, a numeric sample with the real-valued threshold.
   */
  predicate GoesLeft(n: Node, x: Sample)
    requires n.featureIdx < Width(x)
  {
    match x
    case Binned(b) => b[n.featureIdx] <= n.binThreshold
    case Numeric(v) => v[n.featureIdx] <= n.threshold
  }

  /** One step of the walk from internal node `i`: always to a later node. */
  function Next(nodes: seq<Node>, x: Sample, i: nat): (j: nat)
    requires Walkable(nodes, x) && i < |nodes| && !nodes[i].isLeaf
    ensures i < j < |nodes|
    ensures j == nodes[i].left || j == nodes[i].right
  {
    if GoesLeft(nodes[i], x) then nodes[i].left else nodes[i].right
  }

  /** The leaf that sample `x` reaches from node `i`. */
  function LeafOf(nodes: seq<Node>, x: Sample, i: nat): (leaf: nat)
    requires Walkable(nodes, x) && i < |nodes|
    ensures i <= leaf < |nodes| && nodes[leaf].isLeaf
    ensures nodes[i].isLeaf ==> leaf == i
    decreases |nodes| - i
  {
    if nodes[i].isLeaf then i else LeafOf(nodes, x, Next(nodes, x, i))
  }

  /** The position of the walk after at most `k` steps from node `i` (a leaf is never left). */
  function Walk(nodes: seq<Node>, x: Sample, i: nat, k: nat): (j: nat)
    requires Walkable(nodes, x) && i < |nodes|
    ensures i <= j < |nodes|
    ensures k > 0 && !nodes[i].isLeaf ==> i < j
    decreases k
  {
    if k == 0 || nodes[i].isLeaf then i else Walk(nodes, x, Next(nodes, x, i), k - 1)
  }

  /** The number of internal nodes the walk from `i` passes before it stops at a leaf. */
  function Steps(nodes: seq<Node>, x: Sample, i: nat): (k: nat)
    requires Walkable(nodes, x) && i < |nodes|
    ensures k < |nodes| - i
    ensures Walk(nodes, x, i, k) == LeafOf(nodes, x, i)
    ensures nodes[i].isLeaf <==> k == 0
    decreases |nodes| - i
  {
    if nodes[i].isLeaf then 0 else 1 + Steps(nodes, x, Next(nodes, x, i))
  }

  /** Once at a leaf, further steps change nothing. */
  lemma {:induction false} WalkPastLeaf(nodes: seq<Node>, x: Sample, i: nat, k: nat)
    requires Walkable(nodes, x) && i < |nodes|
    requires k >= Steps(nodes, x, i)
    ensures Walk(nodes, x, i, k) == LeafOf(nodes, x, i)
    decreases k
  {
    if !nodes[i].isLeaf {
      WalkPastLeaf(nodes, x, Next(nodes, x, i), k - 1);
    }
  }

  /**
   * One more iteration from an internal position of the walk is one step of
   * the split rule, and that position was reached in fewer than `Steps`
   * iterations.
   */
  lemma {:induction false} WalkStep(nodes: seq<Node>, x: Sample, i: nat, k: nat)
    requires Walkable(nodes, x) && i < |nodes|
    requires !nodes[Walk(nodes, x, i, k)].isLeaf
    ensures k < Steps(nodes, x, i)
    ensures Walk(nodes, x, i, k + 1) == Next(nodes, x, Walk(nodes, x, i, k))
    decreases k
  {
    if k > 0 {
      WalkStep(nodes, x, Next(nodes, x, i), k - 1);
    }
  }

  /**
   * Termination of the predictor's loop: starting at the root, fewer than
   * `|nodes|` iterations reach the leaf, whatever the sample.
   */
  lemma ReachesLeafInFewerThanSize(nodes: seq<Node>, x: Sample)
    requires Walkable(nodes, x)
    ensures nodes[Walk(nodes, x, 0, |nodes| - 1)].isLeaf
    ensures Walk(nodes, x, 0, |nodes| - 1) == LeafOf(nodes, x, 0)
  {
    WalkPastLeaf(nodes, x, 0, |nodes| - 1);
  }

  /** The output row of one sample: the value vector of the leaf it reaches from the root. */
  function Output(nodes: seq<Node>, x: Sample): seq<real>
    requires Walkable(nodes, x)
  {
    nodes[LeafOf(nodes, x, 0)].value
  }

  predicate AllWalkable(nodes: seq<Node>, xs: seq<Sample>)
  {
    forall j :: 0 <= j < |xs| ==> Walkable(nodes, xs[j])
  }

  /** The output matrix of a batch of samples, one row per sample, in order. */
  function PredictAll(nodes: seq<Node>, xs: seq<Sample>): (out: seq<seq<real>>)
    requires AllWalkable(nodes, xs)
    ensures |out| == |xs|
  {
    if xs == [] then [] else [Output(nodes, xs[0])] + PredictAll(nodes, xs[1..])
  }

  /** Row `i` of a batch is the output of sample `i` walked on its own. */
  lemma {:induction false} PredictAllAt(nodes: seq<Node>, xs: seq<Sample>, i: nat)
    requires AllWalkable(nodes, xs) && i < |xs|
    ensures PredictAll(nodes, xs)[i] == Output(nodes, xs[i])
  {
    if i > 0 {
      PredictAllAt(nodes, xs[1..], i - 1);
    }
  }

  /** Every output row has the predictor's output width. */
  lemma PredictAllWidth(nodes: seq<Node>, xs: seq<Sample>, predictionDim: nat, i: nat)
    requires AllWalkable(nodes, xs) && ValuesOfWidth(nodes, predictionDim) && i < |xs|
    ensures |PredictAll(nodes, xs)[i]| == predictionDim
  {
    PredictAllAt(nodes, xs, i);
  }

  /**
   * No cross-sample state: row `i` of the output depends on sample `i` only,
   * so two batches that agree on sample `i` agree on row `i`.
   */
  lemma RowDependsOnlyOnItsSample(nodes: seq<Node>, xs: seq<Sample>, ys: seq<Sample>, i: nat)
    requires AllWalkable(nodes, xs) && AllWalkable(nodes, ys)
    requires i < |xs| && i < |ys| && xs[i] == ys[i]
    ensures PredictAll(nodes, xs)[i] == PredictAll(nodes, ys)[i]
  {
    PredictAllAt(nodes, xs, i);
    PredictAllAt(nodes, ys, i);
  }

  /**
   * Splitting a batch into consecutive chunks and predicting each chunk on
   * its own gives the same rows as predicting the whole batch.
   */
  lemma {:induction false} PredictAllAppend(nodes: seq<Node>, xs: seq<Sample>, ys: seq<Sample>)
    requires AllWalkable(nodes, xs) && AllWalkable(nodes, ys)
    ensures AllWalkable(nodes, xs + ys)
    ensures PredictAll(nodes, xs + ys) == PredictAll(nodes, xs) + PredictAll(nodes, ys)
  {
    if xs != [] {
      assert (xs + ys)[1..] == xs[1..] + ys;
      PredictAllAppend(nodes, xs[1..], ys);
    } else {
      assert xs + ys == ys;
    }
  }

  /**
   * The binned and the numeric split rules select the same child at every
   * internal node for the rows `b` and `v`.
   */
  predicate SameSide(nodes: seq<Node>, b: seq<U8>, v: seq<real>)
    requires FeaturesBelow(nodes, |b|) && FeaturesBelow(nodes, |v|)
  {
    forall i :: 0 <= i < |nodes| && !nodes[i].isLeaf ==>
      (b[nodes[i].featureIdx] <= nodes[i].binThreshold <==> v[nodes[i].featureIdx] <= nodes[i].threshold)
  }

  /**
   * Consistency of the two input modes: a raw row that falls on the same side
   * of every split as a binned row reaches the same leaf, hence the same output.
   */
  lemma {:induction false} BinnedAndNumericAgree(nodes: seq<Node>, b: seq<U8>, v: seq<real>, i: nat)
    requires Linked(nodes) && FeaturesBelow(nodes, |b|) && FeaturesBelow(nodes, |v|)
    requires SameSide(nodes, b, v) && i < |nodes|
    ensures LeafOf(nodes, Binned(b), i) == LeafOf(nodes, Numeric(v), i)
    decreases |nodes| - i
  {
    if !nodes[i].isLeaf {
      assert Next(nodes, Binned(b), i) == Next(nodes, Numeric(v), i);
      BinnedAndNumericAgree(nodes, b, v, Next(nodes, Binned(b), i));
    }
  }

  /** The indices of the leaves of the array. */
  function LeafIndices(nodes: seq<Node>): set<int>
  {
    set i | 0 <= i < |nodes| && nodes[i].isLeaf
  }

  /**
   * The number of nodes whose leaf flag is set (a sum over the flags). A
   * linked array has at least one leaf: its last node has no later node to
   * point to.
   */
  function LeafCount(nodes: seq<Node>): (n: nat)
    ensures n <= |nodes|
    ensures Linked(nodes) ==> n >= 1
  {
    if nodes == [] then 0
    else LeafCount(nodes[..|nodes| - 1]) + (if nodes[|nodes| - 1].isLeaf then 1 else 0)
  }

  lemma {:induction false} LeafCountIsNumberOfLeaves(nodes: seq<Node>)
    ensures LeafCount(nodes) == |LeafIndices(nodes)|
  {
    if nodes != [] {
      var n := |nodes| - 1;
      var prefix := nodes[..n];
      LeafCountIsNumberOfLeaves(prefix);
      if nodes[n].isLeaf {
        assert LeafIndices(nodes) == LeafIndices(prefix) + {n};
      } else {
        assert LeafIndices(nodes) == LeafIndices(prefix);
      }
    }
  }

  /** The largest `depth` field over all nodes. */
  function MaxDepth(nodes: seq<Node>): (d: nat)
    requires |nodes| > 0
    ensures forall i :: 0 <= i < |nodes| ==> nodes[i].depth <= d
    ensures exists i :: 0 <= i < |nodes| && nodes[i].depth == d
  {
    if |nodes| == 1 then nodes[0].depth
    else
      var n := |nodes| - 1;
      var m := MaxDepth(nodes[..n]);
      if nodes[n].depth <= m then m else nodes[n].depth
  }

  /** Depth is the distance from the root: each child is one deeper than its parent. */
  predicate ChildrenDeeper(nodes: seq<Node>)
    requires Linked(nodes)
  {
    forall i :: 0 <= i < |nodes| && !nodes[i].isLeaf ==>
      nodes[nodes[i].left].depth == nodes[i].depth + 1 &&
      nodes[nodes[i].right].depth == nodes[i].depth + 1
  }

  /**
   * When depths grow along child links, the maximum depth over all nodes is
   * reached at a leaf, so it is also the maximum depth among the leaves.
   */
  lemma MaxDepthIsLeafDepth(nodes: seq<Node>)
    requires Linked(nodes) && ChildrenDeeper(nodes)
    ensures exists i :: 0 <= i < |nodes| && nodes[i].isLeaf && nodes[i].depth == MaxDepth(nodes)
  {
    var d := MaxDepth(nodes);
    var i :| 0 <= i < |nodes| && nodes[i].depth == d;
    if !nodes[i].isLeaf {
      assert false;
    }
  }
}
