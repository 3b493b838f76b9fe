# Early-stopping layer of caffe-dev, modelled in Dafny

`EarlystopLayer` sits at the end of a loss computation. It takes one scalar
loss per forward pass and copies it to its output. In the TRAIN phase it
appends the loss to a training-loss history. In the TEST phase it records the
loss as the validation loss. Once the history holds at least `time_interval_`
(k) samples, every TEST forward recomputes three statistics:

- the minimum of the whole history;
- the upper median of the last k samples;
- the sum of the last k samples.

From these and the validation loss it computes a comparison value. When that
value exceeds `threshold_`, it latches `stop`. Backward then writes a gradient
of 0 into its input while `stop` holds, and 1 otherwise.

The project has three modules:

- `Statistics` (`statistics.dfy`) holds the statistic functions:
  - `Sort` is a functional insertion sort proved to give a sorted permutation.
    `SortedPermutationUnique` shows that any sorted permutation is the same
    sequence, so this sort stands for `std::sort`.
  - `FindMin` and `FindMedian` are specified by what they return. `FindMin`
    returns a member of the history that is at most every sample.
    `FindMedian` returns the order statistic at index k/2 of the window.
  - `SumLastK` is the accumulation loop, proved equal to the sum of the last
    k samples.
- `Earlystop` (`earlystop.dfy`) holds the layer:
  - the fields of one layer instance are an immutable `Layer` value;
  - `SetUp`, `Forward` and `Backward` are pure transition functions;
  - the phase is an explicit argument;
  - `Run` folds `Forward` over a trace of events, and the lemmas about whole
    runs are stated over it.
- `Scenarios` (`scenarios.dfy`) works through concrete runs:
  - the upper-median tie-break;
  - a run that keeps training, where the comparison value is -2;
  - a run that stops, where the value is 4. Later the value drops to 0, and
    the gate still stays at 0.

Losses are `real`s, so the sort order is total.

Three points of `Forward_cpu` and `LayerSetUp` shape the model:

- The decision is taken in the TEST branch of `Forward_cpu` (lines 71-87), on
  every TEST forward once the history holds at least k samples.
- `val_loss` is an ordinary field: a TEST forward sets it at line 73 and a
  TRAIN forward zeroes it at line 68.
- `stop` is cleared only at line 47, in `LayerSetUp`, which leaves the
  history and `val_loss` as they were.

When a denominator of the comparison value at lines 78-79 is zero, the code
goes on with an infinity or NaN. The model does not compute that IEEE value:
each forward event carries a `singularVerdict` flag, and on such a TEST
forward the latch takes that flag as the outcome of `tmp > threshold_` at
line 81. The statistics are still updated exactly. So `Forward` and `Run`
are defined on every TEST forward with k >= 1, singular or not.

## Model

| member | source | states |
|---|---|---|
| Statistics.Sort | src/caffe/layers/earlystop_layer.cpp:14-15 | the sorted copy is in ascending order and is a permutation of its input (same multiset, same length) |
| Statistics.SortedPermutationUnique | src/caffe/layers/earlystop_layer.cpp:15 | any two sorted permutations of one sequence are equal, so every correct `std::sort` yields the copy `Sort` yields |
| Statistics.FindMin | src/caffe/layers/earlystop_layer.cpp:12-17 | on a non-empty history, the first element of the sorted copy is a sample of the history and is at most every sample |
| Statistics.RunningMinimum | src/caffe/layers/earlystop_layer.cpp:12-17 | the minimum of the history extended by x is x if x is smaller, else the old minimum, so the full sort can be replaced by a running minimum |
| Statistics.FindMedian | src/caffe/layers/earlystop_layer.cpp:21-27 | for 1 <= k <= length, the result is a sample of the last-k window with at most k/2 window samples below it and more than k/2 at or below it: at least k/2+1 samples are <= it and at least k-k/2 are >= it (upper median for even k) |
| Statistics.OrderStatisticUnique | src/caffe/layers/earlystop_layer.cpp:24-26 | at most one value satisfies the order-statistic condition for index k/2, so the median contract determines the result |
| Statistics.MedianIsSortedWindowIndex | src/caffe/layers/earlystop_layer.cpp:24-26 | for any sorted permutation t of the last-k window, `find_median` equals t[k/2] |
| Statistics.SumLastK | src/caffe/layers/earlystop_layer.cpp:31-37 | the loop from index length-k to the end returns the sum of exactly the last k samples |
| Statistics.SumLastKIgnoresPrefix | src/caffe/layers/earlystop_layer.cpp:34-36 | samples before the window never affect the windowed sum |
| Statistics.SumLastKOrderFree | src/caffe/layers/earlystop_layer.cpp:34-36 | any permutation of the window has the same sum, so the order of accumulation does not matter |
| Earlystop.SetUp | src/caffe/layers/earlystop_layer.cpp:41-52 | an input count other than 1 aborts, and only such a count does; otherwise the parameters are taken, `stop` is false, minimum/median/sum are 0, and the history and validation loss are kept |
| Earlystop.Forward | src/caffe/layers/earlystop_layer.cpp:62-89 | top equals the input. TRAIN appends exactly the input, zeroes `val_loss` and keeps `stop` and the statistics. TEST keeps the history and sets `val_loss`. Below k samples nothing else changes. Otherwise minimum, median and sum are the history minimum, the window's k/2 order statistic and the window sum, and `stop` becomes old `stop` or the decision: comparison > threshold when both denominators are non-zero, the event's `singularVerdict` otherwise. `stop` never goes from true to false, and it becomes true only on such a deciding TEST forward |
| Earlystop.Backward | src/caffe/layers/earlystop_layer.cpp:92-102 | the gradient is 0 exactly when `stop` holds and 1 exactly when it does not; no field is changed |
| Earlystop.HistoryAppendsTrainSamples | src/caffe/layers/earlystop_layer.cpp:67-74 | over any run, the history grows by exactly the TRAIN losses of the run, in order, and the parameters never change |
| Earlystop.WindowOfOneIsSingular | src/caffe/layers/earlystop_layer.cpp:76-78 | with k = 1 and a non-empty history, `sum_loss - 1*median` is zero, so line 78 divides by zero on every TEST forward that computes statistics |
| Earlystop.SetUpReopensGate | src/caffe/layers/earlystop_layer.cpp:47-51 | after a set-up with a single input, backward writes 1, and keeps writing 1 through any run of TRAIN forwards, whatever the layer held before |
| Earlystop.TrainingRunKeepsDecision | src/caffe/layers/earlystop_layer.cpp:67-70 | a run of TRAIN forwards only is always defined and leaves `stop`, minimum, median and sum unchanged, with `val_loss` 0 afterwards |
| Earlystop.StopLatches | src/caffe/layers/earlystop_layer.cpp:81-83 | once `stop` is true it stays true over any run of forwards |
| Earlystop.GateStaysClosed | src/caffe/layers/earlystop_layer.cpp:95-101 | once `stop` is true, backward writes 0 after any later run of forwards |
| Earlystop.StopHasCause | src/caffe/layers/earlystop_layer.cpp:71-83 | if a run turns `stop` from false to true, some event of the run is a TEST forward, taken with at least k samples, whose decision held: comparison value above the threshold, or the event's `singularVerdict` when a denominator is zero |
| Scenarios.UpperMedianOfFour | src/caffe/layers/earlystop_layer.cpp:26 | a history ending in 1, 2, 3, 4 with k = 4 has median 3, not 2.5 |
| Scenarios.ScenarioKeepsTraining | src/caffe/layers/earlystop_layer.cpp:62-101 | k=4, threshold 0.1, lamina 1: train 10, 8, 6, 4 then test 5 gives minimum 4, median 8, sum 28, comparison -2, no stop, gradient 1 |
| Scenarios.ScenarioStops | src/caffe/layers/earlystop_layer.cpp:62-101 | train 1, 1, 1, 2 then test 2 gives comparison 4 > 0.1 and stops. A later test with loss 1 gives comparison 0, and the gradient stays 0 through it and a further train step |

## Left out

- The `LOG(INFO)` calls, `Reshape` and the `INSTANTIATE_CLASS` / `REGISTER_LAYER_CLASS` registration are left out. They hold no decision logic.
- The global `Caffe::phase()` becomes an explicit `Phase` argument.
- The `Blob` accessors become scalar arguments and results. `Forward` reads only element 0 of the input, as the code does.
- The `earlystop_param()` message is not parsed. The parameters arrive as a `Config` value.
- The class header that declares the members is not part of this model. `time_interval_` is taken as a natural number.
- The constructor leaves the scalar fields uninitialised. `Constructed` gives them 0 and `false`. No code path reads them before `LayerSetUp` or a TEST forward writes them.
- `CHECK_EQ` at line 51 aborts the process. It is modelled as the `NotSingleLoss` result of `SetUp`.
- IEEE floating point is left out: rounding, NaN ordering in `std::sort`, and Inf/NaN from the divisions at lines 78-79. Losses are reals.
- Earlystop.Forward: the IEEE value of the comparison when a denominator at lines 78-79 is zero is not computed. The outcome of line 81 is then the event's `singularVerdict` input. This case is common: always when k = 1 (see `WindowOfOneIsSingular`); for a plateau window such as v, v, v with k = 3 (sum 3v, median v); for an odd window symmetric about its median such as 3, 2, 1; and whenever the history minimum times `lamina_` is zero.
- Earlystop.Forward: a TEST forward requires k >= 1. For k = 0 `find_median` reads element 0 of an empty sorted window (and `find_min` does too on an empty history), which is undefined behaviour in the source.
- Earlystop.HistoryAppendsTrainSamples: requires `Runnable`, that is k >= 1 or a run of TRAIN forwards only, because with k = 0 every TEST forward of the source is undefined.
- Earlystop.StopLatches: requires `Runnable`, that is k >= 1 or a run of TRAIN forwards only, because with k = 0 every TEST forward of the source is undefined.
- Earlystop.GateStaysClosed: requires `Runnable`, that is k >= 1 or a run of TRAIN forwards only, because with k = 0 every TEST forward of the source is undefined.
- Earlystop.StopHasCause: requires `Runnable`, that is k >= 1 or a run of TRAIN forwards only, because with k = 0 every TEST forward of the source is undefined.
- Runs feed TRAIN and TEST forwards to one `Layer` value. This is an assumption of the model: the source does not show which layer instances the host feeds with which phase.
- Statistics.SumLastK: requires k <= length. With k larger, the unsigned start index `size() - k` would wrap around and the loop would return 0, but the layer never calls it that way.
- Statistics.FindMedian: requires k >= 1. For k = 0 the code indexes an empty vector.
- Backward calls do not appear in the traces of `Run`, because `Backward_cpu` changes no field.
