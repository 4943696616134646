# EdgeBoost tree predictor, modelled in Dafny

This project models the compiled tree predictor of EdgeBoost, a gradient-boosting
library. A fitted tree is a flat array of node records. Each record holds:

- a leaf flag and a leaf value vector;
- the sample count;
- the split feature;
- a uint8 bin threshold and a numeric threshold;
- `left`/`right` child indices into the same array;
- the gain and the depth.

Prediction starts at node 0. At an internal node it compares the sample's feature
value with the threshold using `<=`. If the comparison holds it moves to `left`,
otherwise to `right`. At a leaf it copies the leaf's value vector into the sample's
output row. Binned input is compared with the bin threshold and numeric input with
the numeric threshold.

Files:

- `tree.dfy`, module `Tree`. It holds the node record, the arena invariant and the
  specification of the walk:
  - `LeafOf`, the leaf a sample reaches;
  - `Walk` and `Steps`, the loop's iterations and their bound;
  - `PredictAll`, the batch output.

  It also holds the two reductions a predictor reports (leaf count, maximum depth)
  and the lemmas about all of these.
- `predictor.dfy`, module `Predictor`. It holds:
  - the per-sample methods, whose loops walk the array and write one row of an
    `array2` output buffer in place;
  - the per-batch methods, whose loops fill every row;
  - the `TreePredictor` class, whose `PredictBinned` and `Predict` validate the
    input's element type and the predictor's mode, allocate or reuse the buffer, and
    fill it.

The arena invariant (`Tree.Linked`) says two things. Node 0 exists. Every internal
node's children are valid indices greater than the node's own index. Together these
give the walk its termination measure `|nodes| - node`. The predictor relies on the
tree builder to produce such arrays and does not check them itself. The model
therefore states them as preconditions of the prediction paths, together with two
more: every split feature is a column of the input, and every value vector has
`predictionDim` entries. The validation errors do not depend on these preconditions.
The preconditions are required only on the paths that go on to predict at least one
sample.

## Model

| member | source | states |
|---|---|---|
| Tree.Next | EdgeBoost/predictor.py:120-123 | one step from an internal node goes to its `left` or `right` child, and that child is a valid index after the node |
| Tree.LeafOf | EdgeBoost/predictor.py:114-123 | the node the walk stops at is a leaf, at or after the start node, and a leaf start node is its own result |
| Tree.Walk | EdgeBoost/predictor.py:116-123 | after `k` loop iterations the walk is still inside the array, and a step from an internal node strictly advances |
| Tree.Steps | EdgeBoost/predictor.py:116-123 | the loop stops after fewer than `|nodes| - i` iterations, exactly at `LeafOf`, and stops at once iff the start node is a leaf |
| Tree.WalkStep | EdgeBoost/predictor.py:120-123 | one more iteration from an internal position is one step of the split rule, taken before the `Steps` bound is reached |
| Tree.WalkPastLeaf | EdgeBoost/predictor.py:117-119 | once the walk reaches its leaf, more iterations leave it there |
| Tree.ReachesLeafInFewerThanSize | EdgeBoost/predictor.py:115-123 | from node 0 the loop reaches the sample's leaf within `len(nodes) - 1` iterations, for every sample |
| Tree.PredictAll | EdgeBoost/predictor.py:126-134 | a batch yields exactly one output row per sample |
| Tree.PredictAllAt | EdgeBoost/predictor.py:126-134 | row `i` of a batch is the value vector of the leaf that sample `i` reaches on its own |
| Tree.PredictAllWidth | EdgeBoost/predictor.py:117-118 | every output row has `predictionDim` entries when every node's value does |
| Tree.RowDependsOnlyOnItsSample | EdgeBoost/predictor.py:149-162 | two batches that agree on sample `i` agree on output row `i` (no cross-sample state) |
| Tree.PredictAllAppend | EdgeBoost/predictor.py:126-134 | predicting two consecutive chunks separately and concatenating equals predicting the whole batch |
| Tree.BinnedAndNumericAgree | EdgeBoost/predictor.py:137-146 | a numeric row that falls on the same side of every split as a binned row reaches the same leaf |
| Tree.LeafCount | EdgeBoost/predictor.py:48-50 | the leaf count is at most the number of nodes, and a linked array has at least one leaf (its last node) |
| Tree.LeafCountIsNumberOfLeaves | EdgeBoost/predictor.py:48-50 | the sum of the leaf flags equals the size of the set of leaf indices |
| Tree.MaxDepth | EdgeBoost/predictor.py:52-54 | the result bounds every node's depth and is the depth of some node |
| Tree.MaxDepthIsLeafDepth | EdgeBoost/predictor.py:52-54 | when each child is one deeper than its parent, the maximum over all nodes is reached at a leaf |
| Predictor.PredictOneBinned | EdgeBoost/predictor.py:114-123 | row `idx` of `out` becomes the value of the leaf the binned row reaches, and every other row is unchanged; the loop's invariants keep its node equal to `Walk` after the iterations so far, and keep that count within `Steps`, below `len(nodes)` |
| Predictor.PredictOneFromNumericData | EdgeBoost/predictor.py:137-146 | row `idx` of `out` becomes the value of the leaf the numeric row reaches, and every other row is unchanged; the loop's invariants keep its node equal to `Walk` after the iterations so far, and keep that count within `Steps`, below `len(nodes)` |
| Predictor.PredictBinnedRows | EdgeBoost/predictor.py:126-134 | after the loop over samples, `out` holds the batch prediction of the binned rows |
| Predictor.PredictFromNumericDataRows | EdgeBoost/predictor.py:149-162 | after the loop over samples, `out` holds the batch prediction of the numeric rows |
| Predictor.TreePredictor.constructor | EdgeBoost/predictor.py:29-32 | the predictor keeps the nodes, the numeric-threshold flag (default true) and the output width (default 1) it is given |
| Predictor.TreePredictor.GetNLeafNodes | EdgeBoost/predictor.py:48-50 | the result is the number of nodes whose leaf flag is set, at least one for a valid predictor |
| Predictor.TreePredictor.GetMaxDepth | EdgeBoost/predictor.py:52-54 | the result is the maximum depth over all nodes; an empty array is an error |
| Predictor.TreePredictor.PredictBinned | EdgeBoost/predictor.py:56-78 | non-uint8 data is refused with that error and nothing is written. Otherwise the result has shape (samples, predictionDim), is `out` itself when given and a fresh buffer when not, and holds the batch prediction |
| Predictor.TreePredictor.Predict | EdgeBoost/predictor.py:80-111 | no numerical thresholds is refused first, whatever the data. Then uint8 data is refused. Otherwise a fresh (samples, predictionDim) buffer holds the batch prediction of the numeric rows |

## Left out

- The per-sample `multiprocessing.Process` fan-out and `prange` in `_predict_binned` and `_predict_from_numeric_data` are not modelled. The model uses the sequential loop over rows they stand for. As written, each child process writes into its own copy of `out`, so the parent's buffer is not filled. The sequential loop models the intended behaviour.
- The debug `print` calls in `_predict_from_numeric_data` are I/O and are left out.
- The constructor's rewrite of the global record dtype is left out. The output width is the predictor's `predictionDim` field instead. `Valid()` requires every node's value vector to have that width.
- Floating point is not modelled. Thresholds, feature values, gains and leaf values are `real`. So the model has no NaN comparisons, no float32 rounding of `threshold`, and no float64-to-float32 conversion when a leaf value is written into the float32 output.
- The leaf flag is a `bool`. The source stores a uint8 and sums it, so a flag other than 0 or 1 would count more than once in `get_n_leaf_nodes`. The model has no such flags.
- Predictor.TreePredictor.PredictBinned: a caller-supplied `out` must have shape (samples, predictionDim). The source does not check this and relies on numpy's assignment failing or broadcasting.
- Predictor.TreePredictor.Predict: the input's element type is a tag (`DType`) next to the matrix. Integer or float inputs are modelled by their values as reals.
- Predictor.TreePredictor.PredictBinned: when there is at least one sample, it requires the whole node array to satisfy the builder's append-order invariant (`Linked`: every child index in range and after its parent) and every split feature to be a column of the input (`FeaturesBelow`). This is stronger than the walk needs. The source raises an index error, or loops, only when a sample actually reaches a bad node; nodes no sample reaches may be malformed. With no samples, the model, like the source, accepts any node array, including an empty one.
- Predictor.TreePredictor.Predict: the same requirement as PredictBinned, on the numeric path, when there is at least one sample.
- The docstrings of `predict_binned` and `predict` give the output and `out` the shape (samples,). The code allocates (samples, prediction_dim), and the model follows the code.
- The numba JIT import, `tests/test_compare_lightgbm.py`, `setup.py` and `EdgeBoost/__init__.py` are not part of this model. The binning, grower, splitter, loss and boosting modules they import are not part of it either.
