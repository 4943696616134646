/**
 * The tree predictor: per-sample walks that write one output row in place,
 * the loops over samples that fill an output buffer, and the predictor
 * object whose two entry points validate their input before predicting.
 */
module Predictor {
  import opened Tree

  /** The element type of an input array (numpy's dtype), as far as the predictor looks at it. */
  datatype DType = UInt8 | Int64 | Float32 | Float64

  /** The validation errors (Python's ValueError) the predictor raises. */
  datatype ValueError =
    | BinnedDataNotUInt8      // predict_binned given data that is not uint8
    | NoNumericalThresholds   // predict on a predictor without numerical thresholds
    | NumericDataIsUInt8      // predict given uint8 (pre-binned) data
    | EmptyReduction          // the maximum of the depths of an empty node array

  datatype Result<T> = Ok(value: T) | Err(error: ValueError)

  datatype Option<T> = None | Some(value: T)

  /** Row `i` of a two-dimensional array. */
  function RowOf<T>(a: array2<T>, i: nat): seq<T>
    requires i < a.Length0
    reads a
  {
    seq(a.Length1, k requires 0 <= k < a.Length1 reads a => a[i, k])
  }

  /** The rows of a two-dimensional array. */
  function Rows<T>(a: array2<T>): seq<seq<T>>
    reads a
  {
    seq(a.Length0, i requires 0 <= i < a.Length0 reads a => RowOf(a, i))
  }

  /** The rows of a uint8 matrix, each as a binned sample. */
  function BinnedSamples(a: array2<U8>): seq<Sample>
    reads a
  {
    seq(a.Length0, i requires 0 <= i < a.Length0 reads a => Binned(RowOf(a, i)))
  }

  /** The rows of a numeric matrix, each as a numeric sample. */
  function NumericSamples(a: array2<real>): seq<Sample>
    reads a
  {
    seq(a.Length0, i requires 0 <= i < a.Length0 reads a => Numeric(RowOf(a, i)))
  }

  /**
   * Walks one binned row from the root to its leaf and copies the leaf's
   * value vector into row `idx` of `out`; no other row is written.
   */
  method PredictOneBinned(nodes: seq<Node>, row: seq<U8>, out: array2<real>, idx: nat)
    requires WellFormed(nodes, |row|, out.Length1)
    requires idx < out.Length0
    modifies out
    ensures forall k :: 0 <= k < out.Length1 ==> out[idx, k] == Output(nodes, Binned(row))[k]
    ensures forall i, k :: 0 <= i < out.Length0 && i != idx && 0 <= k < out.Length1 ==>
              out[i, k] == old(out[i, k])
  {
    ghost var x := Binned(row);
    ghost var steps := 0;
    var node := 0;
    while !nodes[node].isLeaf
      invariant node < |nodes|
      invariant steps <= Steps(nodes, x, 0) < |nodes|
      invariant node == Walk(nodes, x, 0, steps)
      invariant LeafOf(nodes, x, node) == LeafOf(nodes, x, 0)
      invariant unchanged(out)
      decreases |nodes| - node
    {
      WalkStep(nodes, x, 0, steps);
      if row[nodes[node].featureIdx] <= nodes[node].binThreshold {
        node := nodes[node].left;
      } else {
        node := nodes[node].right;
      }
      steps := steps + 1;
    }
    forall k | 0 <= k < out.Length1 {
      out[idx, k] := nodes[node].value[k];
    }
  }

  /** The numeric counterpart of PredictOneBinned: the split compares with `threshold`. */
  method PredictOneFromNumericData(nodes: seq<Node>, row: seq<real>, out: array2<real>, idx: nat)
    requires WellFormed(nodes, |row|, out.Length1)
    requires idx < out.Length0
    modifies out
    ensures forall k :: 0 <= k < out.Length1 ==> out[idx, k] == Output(nodes, Numeric(row))[k]
    ensures forall i, k :: 0 <= i < out.Length0 && i != idx && 0 <= k < out.Length1 ==>
              out[i, k] == old(out[i, k])
  {
    ghost var x := Numeric(row);
    ghost var steps := 0;
    var node := 0;
    while !nodes[node].isLeaf
      invariant node < |nodes|
      invariant steps <= Steps(nodes, x, 0) < |nodes|
      invariant node == Walk(nodes, x, 0, steps)
      invariant LeafOf(nodes, x, node) == LeafOf(nodes, x, 0)
      invariant unchanged(out)
      decreases |nodes| - node
    {
      WalkStep(nodes, x, 0, steps);
      if row[nodes[node].featureIdx] <= nodes[node].threshold {
        node := nodes[node].left;
      } else {
        node := nodes[node].right;
      }
      steps := steps + 1;
    }
    forall k | 0 <= k < out.Length1 {
      out[idx, k] := nodes[node].value[k];
    }
  }

  /**
   * When every row of `out` is the output of the matching sample, `out`
   * as a whole is the batch prediction.
   */
  lemma RowsArePredictAll(nodes: seq<Node>, xs: seq<Sample>, out: array2<real>)
    requires AllWalkable(nodes, xs) && ValuesOfWidth(nodes, out.Length1) && out.Length0 == |xs|
    requires forall i, k :: 0 <= i < |xs| && 0 <= k < out.Length1 ==> out[i, k] == Output(nodes, xs[i])[k]
    ensures Rows(out) == PredictAll(nodes, xs)
  {
    forall i | 0 <= i < |xs|
      ensures Rows(out)[i] == PredictAll(nodes, xs)[i]
    {
      PredictAllAt(nodes, xs, i);
      assert RowOf(out, i) == Output(nodes, xs[i]);
    }
  }

  /** Fills every row of `out` with the prediction for the matching row of `binnedData`. */
  method PredictBinnedRows(nodes: seq<Node>, binnedData: array2<U8>, out: array2<real>)
    requires binnedData.Length0 > 0 ==> WellFormed(nodes, binnedData.Length1, out.Length1)
    requires out.Length0 == binnedData.Length0
    modifies out
    ensures Rows(out) == PredictAll(nodes, BinnedSamples(binnedData))
  {
    for i := 0 to binnedData.Length0
      invariant forall r, k :: 0 <= r < i && 0 <= k < out.Length1 ==>
                  out[r, k] == Output(nodes, Binned(RowOf(binnedData, r)))[k]
    {
      PredictOneBinned(nodes, RowOf(binnedData, i), out, i);
    }
    if binnedData.Length0 > 0 {
      RowsArePredictAll(nodes, BinnedSamples(binnedData), out);
    }
  }

  /** Fills every row of `out` with the prediction for the matching row of `numericData`. */
  method PredictFromNumericDataRows(nodes: seq<Node>, numericData: array2<real>, out: array2<real>)
    requires numericData.Length0 > 0 ==> WellFormed(nodes, numericData.Length1, out.Length1)
    requires out.Length0 == numericData.Length0
    requires out != numericData
    modifies out
    ensures Rows(out) == PredictAll(nodes, NumericSamples(numericData))
  {
    for i := 0 to numericData.Length0
      invariant forall r, k :: 0 <= r < i && 0 <= k < out.Length1 ==>
                  out[r, k] == Output(nodes, Numeric(RowOf(numericData, r)))[k]
    {
      PredictOneFromNumericData(nodes, RowOf(numericData, i), out, i);
    }
    if numericData.Length0 > 0 {
      RowsArePredictAll(nodes, NumericSamples(numericData), out);
    }
  }

  /**
   * A fitted tree ready for prediction. The output width is a field of the
   * predictor; every node's value vector is expected to have that width.
   */
  class TreePredictor {
    const nodes: seq<Node>
    const hasNumericalThresholds: bool
    const predictionDim: nat

    constructor (nodes: seq<Node>, hasNumericalThresholds: bool := true, predictionDim: nat := 1)
      ensures this.nodes == nodes
      ensures this.hasNumericalThresholds == hasNumericalThresholds
      ensures this.predictionDim == predictionDim
    {
      this.nodes := nodes;
      this.hasNumericalThresholds := hasNumericalThresholds;
      this.predictionDim := predictionDim;
    }

    /** The node array is a linked arena whose value vectors are `predictionDim` wide. */
    ghost predicate Valid()
    {
      Linked(nodes) && ValuesOfWidth(nodes, predictionDim)
    }

    /** The number of leaves. */
    function GetNLeafNodes(): (n: nat)
      ensures n == |LeafIndices(nodes)|
      ensures n <= |nodes|
      ensures Valid() ==> n >= 1
    {
      LeafCountIsNumberOfLeaves(nodes);
      LeafCount(nodes)
    }

    /** The largest depth over all nodes; an empty node array has no maximum. */
    function GetMaxDepth(): (r: Result<nat>)
      ensures r.Err? <==> |nodes| == 0
      ensures r.Err? ==> r.error == EmptyReduction
      ensures r.Ok? ==> (forall i :: 0 <= i < |nodes| ==> nodes[i].depth <= r.value)
      ensures r.Ok? ==> exists i :: 0 <= i < |nodes| && nodes[i].depth == r.value
    {
      if |nodes| == 0 then Err(EmptyReduction) else Ok(MaxDepth(nodes))
    }

    /**
     * Predicts raw values for binned data. Data whose element type is not
     * uint8 is refused before anything is written. Without `out` a fresh
     * buffer of shape (samples, predictionDim) is filled; with `out` that
     * buffer is filled in place and returned. The tree's shape matters only
     * when there is at least one sample.
     */
    method PredictBinned(binnedData: array2<U8>, dtype: DType, out: Option<array2<real>>)
      returns (r: Result<array2<real>>)
      requires dtype == UInt8 && binnedData.Length0 > 0 ==> Valid() && FeaturesBelow(nodes, binnedData.Length1)
      requires dtype == UInt8 && out.Some? ==>
                 out.value.Length0 == binnedData.Length0 && out.value.Length1 == predictionDim
      modifies if out.Some? then {out.value} else {}
      ensures r.Err? <==> dtype != UInt8
      ensures r.Err? ==> r.error == BinnedDataNotUInt8
      ensures r.Err? && out.Some? ==> unchanged(out.value)
      ensures r.Ok? && out.Some? ==> r.value == out.value
      ensures r.Ok? && out.None? ==> fresh(r.value)
      ensures r.Ok? ==> r.value.Length0 == binnedData.Length0 && r.value.Length1 == predictionDim
      ensures r.Ok? ==> Rows(r.value) == PredictAll(nodes, BinnedSamples(binnedData))
    {
      if dtype != UInt8 {
        return Err(BinnedDataNotUInt8);
      }
      var buffer: array2<real>;
      if out.None? {
        buffer := new real[binnedData.Length0, predictionDim];
      } else {
        buffer := out.value;
      }
      PredictBinnedRows(nodes, binnedData, buffer);
      r := Ok(buffer);
    }

    /**
     * Predicts raw values for numeric data. A predictor without numerical
     * thresholds refuses first, whatever the data; then uint8 data is refused
     * as already binned. Otherwise a fresh (samples, predictionDim) buffer is
     * filled and returned.
     */
    method Predict(x: array2<real>, dtype: DType) returns (r: Result<array2<real>>)
      requires hasNumericalThresholds && dtype != UInt8 && x.Length0 > 0 ==>
                 Valid() && FeaturesBelow(nodes, x.Length1)
      ensures !hasNumericalThresholds ==> r == Err(NoNumericalThresholds)
      ensures hasNumericalThresholds && dtype == UInt8 ==> r == Err(NumericDataIsUInt8)
      ensures r.Ok? <==> hasNumericalThresholds && dtype != UInt8
      ensures r.Ok? ==> fresh(r.value)
      ensures r.Ok? ==> r.value.Length0 == x.Length0 && r.value.Length1 == predictionDim
      ensures r.Ok? ==> Rows(r.value) == PredictAll(nodes, NumericSamples(x))
    {
      if !hasNumericalThresholds {
        return Err(NoNumericalThresholds);
      }
      if dtype == UInt8 {
        return Err(NumericDataIsUInt8);
      }
      var buffer := new real[x.Length0, predictionDim];
      PredictFromNumericDataRows(nodes, x, buffer);
      r := Ok(buffer);
    }
  }
}
