/**
 Concrete runs of the early-stopping layer, worked through the model: the
 upper-median tie-break, a run that keeps training and a run that stops.
 */
module Scenarios {
  import opened Statistics
  import opened Earlystop

  /** For an even window the median is the upper middle sample, not an average. */
  lemma UpperMedianOfFour(p: seq<real>)
    ensures FindMedian(p + [1.0, 2.0, 3.0, 4.0], 4) == 3.0
  {
    var s := p + [1.0, 2.0, 3.0, 4.0];
    assert Window(s, 4) == [1.0, 2.0, 3.0, 4.0];
    MedianIsSortedWindowIndex(s, 4, [1.0, 2.0, 3.0, 4.0]);
  }

  /** Layer parameters of both runs: window 4, threshold 0.1, lamina 1. */
  function ScenarioConfig(): Config {
    Config(0.1, 1.0, 4)
  }

  /** A layer with an empty history right after a successful `LayerSetUp`. */
  predicate Configured(l: Layer) {
    l.config == ScenarioConfig() && l.trainLoss == [] && !l.stop
  }

  /** A freshly constructed layer is in that state once set up. */
  lemma SetUpConfigures()
    ensures SetUp(Constructed(ScenarioConfig()), ScenarioConfig(), 1).Ready?
    ensures Configured(SetUp(Constructed(ScenarioConfig()), ScenarioConfig(), 1).layer)
  {
  }

  /** Indicator of a condition, as the counting folds add it up. */
  function Ind(b: bool): nat {
    if b then 1 else 0
  }

  /** The three folds of a four-sample window, written out. */
  lemma FoldsOfFour(a: real, b: real, c: real, d: real, x: real)
    ensures Sum([a, b, c, d]) == a + b + c + d
    ensures CountLe([a, b, c, d], x) == Ind(a <= x) + Ind(b <= x) + Ind(c <= x) + Ind(d <= x)
    ensures CountLt([a, b, c, d], x) == Ind(a < x) + Ind(b < x) + Ind(c < x) + Ind(d < x)
  {
    assert [a, b, c, d][..3] == [a, b, c];
    assert [a, b, c][..2] == [a, b];
    assert [a, b][..1] == [a];
    assert [a][..0] == [];
    assert Sum([a]) == a;
    assert CountLe([a], x) == Ind(a <= x);
    assert CountLt([a], x) == Ind(a < x);
    assert Sum([a, b]) == a + b;
    assert CountLe([a, b], x) == Ind(a <= x) + Ind(b <= x);
    assert CountLt([a, b], x) == Ind(a < x) + Ind(b < x);
    assert Sum([a, b, c]) == a + b + c;
    assert CountLe([a, b, c], x) == Ind(a <= x) + Ind(b <= x) + Ind(c <= x);
    assert CountLt([a, b, c], x) == Ind(a < x) + Ind(b < x) + Ind(c < x);
  }

  /** Statistics of the history 10, 8, 6, 4 with window 4. */
  lemma StatsKeepsTraining(s: seq<real>)
    requires s == [10.0, 8.0, 6.0, 4.0]
    ensures StatsOf(s, 4) == Stats(4.0, 8.0, 28.0)
  {
    var w := Window(s, 4);
    assert w == s;
    assert FindMin(s) == 4.0 by {
      assert FindMin(s) <= s[3];
    }
    assert FindMedian(s, 4) == 8.0 by {
      FoldsOfFour(10.0, 8.0, 6.0, 4.0, 8.0);
      assert IsOrderStatistic(s, 2, 8.0);
      OrderStatisticUnique(s, 2, FindMedian(s, 4), 8.0);
    }
    assert Sum(w) == 28.0 by {
      FoldsOfFour(10.0, 8.0, 6.0, 4.0, 0.0);
    }
  }

  /** Statistics of the history 1, 1, 1, 2 with window 4. */
  lemma StatsStops(s: seq<real>)
    requires s == [1.0, 1.0, 1.0, 2.0]
    ensures StatsOf(s, 4) == Stats(1.0, 1.0, 5.0)
  {
    var w := Window(s, 4);
    assert w == s;
    assert FindMin(s) == 1.0 by {
      assert FindMin(s) <= s[0];
    }
    assert FindMedian(s, 4) == 1.0 by {
      FoldsOfFour(1.0, 1.0, 1.0, 2.0, 1.0);
      assert IsOrderStatistic(s, 2, 1.0);
      OrderStatisticUnique(s, 2, FindMedian(s, 4), 1.0);
    }
    assert Sum(w) == 5.0 by {
      FoldsOfFour(1.0, 1.0, 1.0, 2.0, 0.0);
    }
  }


  /** Four TRAIN forwards append their losses and leave the latch alone. */
  lemma TrainFour(l: Layer, a: real, b: real, c: real, d: real, v: bool)
    ensures
      var l4 := Forward(Forward(Forward(Forward(l, Train, a, v).layer, Train, b, v).layer, Train, c, v).layer, Train, d, v).layer;
      && l4.trainLoss == l.trainLoss + [a, b, c, d]
      && l4.config == l.config
      && l4.stop == l.stop
  {
  }

  /** Training losses 10, 8, 6, 4, then validation loss 5: the value is -2, so training goes on. */
  lemma ScenarioKeepsTraining(l4: Layer, v: bool)
    requires l4.config == ScenarioConfig() && !l4.stop
    requires l4.trainLoss == [10.0, 8.0, 6.0, 4.0]
    ensures TestDefined(l4) && ChecksOnTest(l4) && Regular(l4)
    ensures ComparisonOn(l4, 5.0) == -2.0
    ensures
      var l5 := Forward(l4, Test, 5.0, v).layer;
      && l5.minimum == 4.0 && l5.median == 8.0 && l5.sumLoss == 28.0
      && !l5.stop
      && Backward(l5) == 1.0
  {
    StatsKeepsTraining(l4.trainLoss);
  }

  /** A set-up layer trained on 10, 8, 6, 4 is the starting point of ScenarioKeepsTraining. */
  lemma ReachKeepsTraining(l0: Layer, v: bool)
    requires Configured(l0)
    ensures
      var l4 := Forward(Forward(Forward(Forward(l0, Train, 10.0, v).layer, Train, 8.0, v).layer, Train, 6.0, v).layer, Train, 4.0, v).layer;
      && l4.config == ScenarioConfig() && !l4.stop
      && l4.trainLoss == [10.0, 8.0, 6.0, 4.0]
  {
    TrainFour(l0, 10.0, 8.0, 6.0, 4.0, v);
  }

  /**
   Training losses 1, 1, 1, 2, then validation loss 2: the value is 4 > 0.1,
   so the latch closes; a later validation loss of 1 gives 0, yet the gate
   stays at 0, and so it does after a further training sample.
   */
  lemma ScenarioStops(l4: Layer, v: bool)
    requires l4.config == ScenarioConfig() && !l4.stop
    requires l4.trainLoss == [1.0, 1.0, 1.0, 2.0]
    ensures TestDefined(l4) && ChecksOnTest(l4) && Regular(l4)
    ensures ComparisonOn(l4, 2.0) == 4.0
    ensures ComparisonOn(l4, 1.0) == 0.0
    ensures
      var l5 := Forward(l4, Test, 2.0, v).layer;
      && l5.stop && Backward(l5) == 0.0
      && var l6 := Forward(l5, Test, 1.0, v).layer;
      && l6.stop && Backward(l6) == 0.0
      && Backward(Forward(l6, Train, 3.0, v).layer) == 0.0
  {
    StatsStops(l4.trainLoss);
  }

  /** A set-up layer trained on 1, 1, 1, 2 is the starting point of ScenarioStops. */
  lemma ReachStops(l0: Layer, v: bool)
    requires Configured(l0)
    ensures
      var l4 := Forward(Forward(Forward(Forward(l0, Train, 1.0, v).layer, Train, 1.0, v).layer, Train, 1.0, v).layer, Train, 2.0, v).layer;
      && l4.config == ScenarioConfig() && !l4.stop
      && l4.trainLoss == [1.0, 1.0, 1.0, 2.0]
  {
    TrainFour(l0, 1.0, 1.0, 1.0, 2.0, v);
  }
}
