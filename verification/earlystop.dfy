/**
 The state machine of `EarlystopLayer`: set-up, forward in the TRAIN and TEST
 phases, and the backward 0/1 gradient gate. The current phase, the threshold,
 lamina and time interval, and the single scalar loss are explicit values
 here instead of the framework's global phase, layer parameters and blobs.
 */
module Earlystop {
  import opened Statistics

  /** The two values of the framework's global phase. */
  datatype Phase = Train | Test

  /** The three layer parameters read in `LayerSetUp`. */
  datatype Config = Config(threshold: real, lamina: real, timeInterval: nat)

  /** The member fields of one layer instance. */
  datatype Layer = Layer(
    config: Config,
    trainLoss: seq<real>,
    valLoss: real,
    minimum: real,
    median: real,
    sumLoss: real,
    stop: bool)

  /** `LayerSetUp` either configures the layer or aborts on a non-scalar input. */
  datatype SetUpResult = Ready(layer: Layer) | NotSingleLoss(count: nat)

  /** What one forward pass leaves behind: the new fields and the top value. */
  datatype Step = Step(layer: Layer, top: real)

  /**
   One forward call of the host loop: its phase, its scalar input, and what
   the floating-point test `tmp > threshold_` yields should a denominator of
   the comparison value be zero (see `Decides`).
   */
  datatype Event = Event(phase: Phase, loss: real, singularVerdict: bool)

  /**
   A freshly constructed layer: its history vector is empty. Its scalar fields
   are not initialised by the constructor; they are given 0 and `false` here,
   and none of them is read before `LayerSetUp` or a TEST forward writes it.
   */
  function Constructed(config: Config): (l: Layer)
    ensures l.trainLoss == [] && !l.stop
  {
    Layer(config, [], 0.0, 0.0, 0.0, 0.0, false)
  }

  /**
   `LayerSetUp`: takes the parameters, clears the latch and the statistics,
   then insists on a single scalar input. The history and the validation loss
   are left as they were.
   */
  function SetUp(l: Layer, config: Config, count: nat): (r: SetUpResult)
    ensures r.NotSingleLoss? <==> count != 1
    ensures r.Ready? ==> r.layer.config == config && !r.layer.stop
    ensures r.Ready? ==> r.layer.minimum == 0.0 && r.layer.median == 0.0 && r.layer.sumLoss == 0.0
    ensures r.Ready? ==> r.layer.trainLoss == l.trainLoss && r.layer.valLoss == l.valLoss
  {
    if count != 1 then NotSingleLoss(count)
    else Ready(l.(config := config, stop := false, median := 0.0, minimum := 0.0, sumLoss := 0.0))
  }

  /** The TEST forward recomputes the statistics once this many samples exist. */
  predicate ChecksOnTest(l: Layer) {
    |l.trainLoss| >= l.config.timeInterval
  }

  /** The statistics a TEST forward of `Forward_cpu` computes from the history. */
  datatype Stats = Stats(minimum: real, median: real, sumLoss: real)

  function StatsOf(s: seq<real>, k: nat): Stats
    requires 1 <= k <= |s|
  {
    Stats(FindMin(s), FindMedian(s, k), Sum(Window(s, k)))
  }

  /** Neither denominator of the comparison value of `Forward_cpu` is zero. */
  predicate Defined(k: nat, lamina: real, st: Stats) {
    st.sumLoss - k as real * st.median != 0.0 && lamina * st.minimum != 0.0
  }

  /** The comparison value of `Forward_cpu`, over the reals. */
  function Comparison(k: nat, lamina: real, st: Stats, valLoss: real): real
    requires Defined(k, lamina, st)
  {
    var ratio := k as real * st.median / (st.sumLoss - k as real * st.median);
    ratio * (valLoss - st.minimum) / (lamina * st.minimum)
  }

  /**
   The statistics of a TEST forward are defined: the window is non-empty.
   With k = 0 the code reads element 0 of an empty sorted window.
   */
  predicate TestDefined(l: Layer) {
    l.config.timeInterval >= 1
  }

  /** The comparison value has no zero denominator. */
  predicate Regular(l: Layer)
    requires TestDefined(l) && ChecksOnTest(l)
  {
    Defined(l.config.timeInterval, l.config.lamina, StatsOf(l.trainLoss, l.config.timeInterval))
  }

  /** The comparison value a TEST forward with validation loss x computes. */
  function ComparisonOn(l: Layer, x: real): real
    requires TestDefined(l) && ChecksOnTest(l) && Regular(l)
  {
    Comparison(l.config.timeInterval, l.config.lamina, StatsOf(l.trainLoss, l.config.timeInterval), x)
  }

  /**
   A TEST forward with validation loss x latches the stop flag. Over the reals
   that is `comparison > threshold`; when a denominator is zero the code goes
   on with an infinity or NaN, and the outcome is the given verdict.
   */
  predicate Decides(l: Layer, x: real, singularVerdict: bool)
    requires TestDefined(l) && ChecksOnTest(l)
  {
    if Regular(l) then ComparisonOn(l, x) > l.config.threshold else singularVerdict
  }

  /** With a one-sample window the first denominator is always zero. */
  lemma WindowOfOneIsSingular(l: Layer)
    requires l.config.timeInterval == 1 && |l.trainLoss| >= 1
    ensures !Regular(l)
  {
    var s := l.trainLoss;
    assert Window(s, 1) == [s[|s| - 1]];
    assert Window(s, 1)[..0] == [];
    assert Sum(Window(s, 1)) == s[|s| - 1];
    assert FindMedian(s, 1) in Window(s, 1);
    assert FindMedian(s, 1) == s[|s| - 1];
  }

  /** `Forward_cpu`: copy the input to the output, then act on the phase. */
  function Forward(l: Layer, phase: Phase, x: real, singularVerdict: bool): (r: Step)
    requires phase == Test ==> TestDefined(l)
    ensures r.top == x
    ensures r.layer.config == l.config
    // TRAIN: append the sample, zero the validation loss, nothing else changes.
    ensures phase == Train ==>
      && r.layer.trainLoss == l.trainLoss + [x]
      && r.layer.valLoss == 0.0
      && r.layer.stop == l.stop
      && r.layer.minimum == l.minimum && r.layer.median == l.median && r.layer.sumLoss == l.sumLoss
    // TEST: record the validation loss; the history is untouched.
    ensures phase == Test ==> r.layer.trainLoss == l.trainLoss && r.layer.valLoss == x
    ensures phase == Test && !ChecksOnTest(l) ==> r.layer == l.(valLoss := x)
    // TEST with enough samples: fresh statistics over the history and its window.
    ensures phase == Test && ChecksOnTest(l) ==>
      var k := l.config.timeInterval;
      && r.layer.minimum in l.trainLoss
      && (forall i :: 0 <= i < |l.trainLoss| ==> r.layer.minimum <= l.trainLoss[i])
      && IsOrderStatistic(Window(l.trainLoss, k), k / 2, r.layer.median)
      && r.layer.sumLoss == Sum(Window(l.trainLoss, k))
      && (r.layer.stop <==> l.stop || Decides(l, x, singularVerdict))
    // The latch never opens, and closes only on a deciding TEST forward.
    ensures l.stop ==> r.layer.stop
    ensures !l.stop && r.layer.stop ==> phase == Test && ChecksOnTest(l) && Decides(l, x, singularVerdict)
  {
    match phase
    case Train =>
      Step(l.(valLoss := 0.0, trainLoss := l.trainLoss + [x]), x)
    case Test =>
      if ChecksOnTest(l) then
        var st := StatsOf(l.trainLoss, l.config.timeInterval);
        var exceeds :=
          if Defined(l.config.timeInterval, l.config.lamina, st)
          then Comparison(l.config.timeInterval, l.config.lamina, st, x) > l.config.threshold
          else singularVerdict;
        var stop := if exceeds then true else l.stop;
        Step(l.(valLoss := x, minimum := st.minimum, median := st.median, sumLoss := st.sumLoss, stop := stop), x)
      else
        Step(l.(valLoss := x), x)
  }

  /** `Backward_cpu`: the gradient written to the input is 0 once stopped, 1 before. */
  function Backward(l: Layer): (diff: real)
    ensures diff == 0.0 <==> l.stop
    ensures diff == 1.0 <==> !l.stop
  {
    if l.stop then 0.0 else 1.0
  }

  /* ---------------------------------------------------------------------
     Runs: a sequence of forward calls driven by the host loop. Backward
     calls change no field, so they need not appear in a run.
     --------------------------------------------------------------------- */

  /** Every TEST forward of the run has a non-empty window (k is fixed during a run). */
  predicate Runnable(config: Config, events: seq<Event>) {
    config.timeInterval >= 1 || forall i :: 0 <= i < |events| ==> events[i].phase == Train
  }

  function Run(l: Layer, events: seq<Event>): Layer
    requires Runnable(l.config, events)
    decreases |events|
  {
    if |events| == 0 then l
    else
      assert events[0].phase == Test ==> TestDefined(l);
      Run(Forward(l, events[0].phase, events[0].loss, events[0].singularVerdict).layer, events[1..])
  }

  /** The losses of the TRAIN events of a run, in order. */
  function TrainSamples(events: seq<Event>): seq<real>
    decreases |events|
  {
    if |events| == 0 then []
    else (if events[0].phase == Train then [events[0].loss] else []) + TrainSamples(events[1..])
  }

  /** The history is append-only: it grows by exactly the TRAIN samples of the run. */
  lemma {:induction false} HistoryAppendsTrainSamples(l: Layer, events: seq<Event>)
    requires Runnable(l.config, events)
    ensures Run(l, events).trainLoss == l.trainLoss + TrainSamples(events)
    ensures Run(l, events).config == l.config
    decreases |events|
  {
    if |events| > 0 {
      var e, rest := events[0], events[1..];
      var next := Forward(l, e.phase, e.loss, e.singularVerdict).layer;
      assert next.config == l.config;
      assert next.trainLoss + TrainSamples(rest) == l.trainLoss + TrainSamples(events) by {
        if e.phase == Train {
          assert next.trainLoss == l.trainLoss + [e.loss];
          assert TrainSamples(events) == [e.loss] + TrainSamples(rest);
        } else {
          assert next.trainLoss == l.trainLoss;
          assert TrainSamples(events) == TrainSamples(rest);
        }
      }
      HistoryAppendsTrainSamples(next, rest);
    }
  }

  /** Only TRAIN events: always defined, and the latch and statistics are untouched. */
  lemma {:induction false} TrainingRunKeepsDecision(l: Layer, events: seq<Event>)
    requires forall i :: 0 <= i < |events| ==> events[i].phase == Train
    ensures Runnable(l.config, events)
    ensures Run(l, events).stop == l.stop
    ensures Run(l, events).minimum == l.minimum
    ensures Run(l, events).median == l.median
    ensures Run(l, events).sumLoss == l.sumLoss
    ensures |events| > 0 ==> Run(l, events).valLoss == 0.0
    decreases |events|
  {
    if |events| > 0 {
      var next := Forward(l, events[0].phase, events[0].loss, events[0].singularVerdict).layer;
      TrainingRunKeepsDecision(next, events[1..]);
    }
  }

  /** Once latched, the stop flag stays set for the rest of the run. */
  lemma {:induction false} StopLatches(l: Layer, events: seq<Event>)
    requires Runnable(l.config, events)
    requires l.stop
    ensures Run(l, events).stop
    decreases |events|
  {
    if |events| > 0 {
      var next := Forward(l, events[0].phase, events[0].loss, events[0].singularVerdict).layer;
      StopLatches(next, events[1..]);
    }
  }

  /** Once latched, every later backward pass writes a zero gradient. */
  lemma GateStaysClosed(l: Layer, events: seq<Event>)
    requires Runnable(l.config, events)
    requires l.stop
    ensures Backward(Run(l, events)) == 0.0
  {
    StopLatches(l, events);
  }

  /** A successful set-up reopens the gate, and training alone keeps it open. */
  lemma SetUpReopensGate(l: Layer, config: Config, events: seq<Event>)
    requires forall i :: 0 <= i < |events| ==> events[i].phase == Train
    ensures SetUp(l, config, 1).Ready?
    ensures Runnable(config, events)
    ensures Backward(Run(SetUp(l, config, 1).layer, events)) == 1.0
  {
    TrainingRunKeepsDecision(SetUp(l, config, 1).layer, events);
  }

  /** Index bookkeeping for a prefix of a run, kept apart from the run lemmas. */
  lemma PrefixShift(events: seq<Event>, j: nat)
    requires j + 1 < |events|
    ensures events[..j + 1][0] == events[0]
    ensures events[..j + 1][1..] == events[1..][..j]
    ensures events[1..][j] == events[j + 1]
  {
  }

  /** A run that sets the flag contains a TEST event whose comparison exceeded the threshold. */
  lemma {:induction false} StopHasCause(l: Layer, events: seq<Event>) returns (i: nat)
    requires Runnable(l.config, events)
    requires !l.stop && Run(l, events).stop
    ensures i < |events| && events[i].phase == Test
    ensures Runnable(l.config, events[..i])
    ensures Run(l, events[..i]).config == l.config
    ensures TestDefined(Run(l, events[..i])) && ChecksOnTest(Run(l, events[..i]))
    ensures Decides(Run(l, events[..i]), events[i].loss, events[i].singularVerdict)
    decreases |events|
  {
    var next := Forward(l, events[0].phase, events[0].loss, events[0].singularVerdict).layer;
    assert events[..0] == [];
    if next.stop {
      i := 0;
    } else {
      var j := StopHasCause(next, events[1..]);
      i := j + 1;
      PrefixShift(events, j);
      assert Runnable(l.config, events[..i]);
      assert Run(l, events[..i]) == Run(next, events[1..][..j]);
    }
  }
}
