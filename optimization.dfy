/**
 * Learning and judging a metric from the user's scores: the squared-error
 * objective handed to the optimizer, the guard and defaults of
 * `optimize_metric_module`, and the summary statistics `MetricEvaluator`
 * reports. Scores are exact reals; the metric module is a pure function
 * from (input, prediction, gold) to a score.
 */
module Optimization {
  import opened Wrappers
  import opened Store

  /** `get_labeled_dataset(data_manager)`: the store's labelled examples. */
  method GetLabeledDataset(dataManager: MetricDataManager, listing: seq<string>) returns (dataset: seq<Example>)
    ensures dataset == Labeled(Loaded(dataManager.files, listing))
    ensures forall e :: e in dataset <==>
              exists x :: x in Loaded(dataManager.files, listing) && x.userScore.Some? && e == ToExample(x)
  {
    dataset := dataManager.GetLabeledDataset(listing);
    LabeledMembers(Loaded(dataManager.files, listing));
  }

  // ---------------------------------------------------------------------------
  // mse_metric and optimize_metric_module

  /** What DSPy passes as `trace`: the recorded module calls, or None. */
  type Trace = Option<seq<string>>

  /** A metric as the optimizer calls it: `metric(example, pred, trace)`. */
  type MetricFn = (Example, real, Trace) -> real

  /** `mse_metric`: the negated squared error, so that higher is better. */
  function MseMetric(example: Example, pred: real, trace: Trace): (r: real)
    ensures r <= 0.0
    ensures pred == example.userScore ==> r == 0.0
    ensures pred != example.userScore ==> r < 0.0
  {
    var d := pred - example.userScore;
    SquareSign(d, d * d);
    -(d * d)
  }

  lemma PositiveProduct(a: real, b: real, s: real)
    requires a > 0.0 && b > 0.0 && s == a * b
    ensures s > 0.0
  {
  }

  /** A square `s` of `d` is never negative, and is positive unless `d` is zero. */
  lemma SquareSign(d: real, s: real)
    requires s == d * d
    ensures s >= 0.0
    ensures d != 0.0 ==> s > 0.0
  {
    if d > 0.0 {
      PositiveProduct(d, d, s);
    } else if d < 0.0 {
      PositiveProduct(-d, -d, (-d) * (-d));
    }
  }

  /** The `trace` argument never changes the metric. */
  lemma MseIgnoresTrace(example: Example, pred: real, t1: Trace, t2: Trace)
    ensures MseMetric(example, pred, t1) == MseMetric(example, pred, t2)
  {
  }

  /**
   * A closer prediction never scores worse: moving the prediction further
   * from the user score, on either side, never raises the metric.
   */
  lemma MseMonotone(example: Example, p: real, q: real, trace: Trace)
    requires example.userScore <= p <= q || q <= p <= example.userScore
    ensures MseMetric(example, q, trace) <= MseMetric(example, p, trace)
  {
    var a := p - example.userScore;
    var b := q - example.userScore;
    if example.userScore <= p <= q {
      assert 0.0 <= a <= b;
      assert a * a <= a * b <= b * b;
    } else {
      assert 0.0 <= -a <= -b;
      assert (-a) * (-a) <= (-a) * (-b) <= (-b) * (-b);
      assert a * a == (-a) * (-a) && b * b == (-b) * (-b);
    }
  }

  /** The optimizer classes: DSPy's `BootstrapFewShot`, or one the caller supplies. */
  datatype Optimizer = BootstrapFewShot | Supplied(name: string)

  /**
   * What `optimize_metric_module` does: hands back the module untouched, or
   * builds `optimizer(metric=metric)` and returns what compiling the module on
   * the dataset yields.
   */
  datatype Optimization<M> =
    | Returned(result: M)
    | Compiled(optimizer: Optimizer, metric: MetricFn, trainset: seq<Example>, result: M)

  /** The metric the optimizer is built with: the given one, or `mse_metric`. */
  function ChosenMetric(metricFn: Option<MetricFn>): (m: MetricFn)
    ensures metricFn.Some? ==> m == metricFn.value
  {
    if metricFn.Some? then metricFn.value else MseMetric
  }

  /**
   * `optimize_metric_module(metric_module, dataset, metric_fn, optimizer_class)`;
   * `compile` is `optimizer.compile(module, trainset=dataset)`, which runs the
   * language model and is not part of this model.
   */
  function OptimizeMetricModule<M>(metricModule: M, dataset: seq<Example>, metricFn: Option<MetricFn>,
                                   optimizerClass: Option<Optimizer>,
                                   compile: (Optimizer, MetricFn, M, seq<Example>) -> M): (r: Optimization<M>)
    ensures r.Returned? <==> dataset == []
    ensures r.Returned? ==> r.result == metricModule
    ensures r.Compiled? ==> r.trainset == dataset && |r.trainset| > 0
    ensures r.Compiled? && optimizerClass.None? ==> r.optimizer == BootstrapFewShot
    ensures r.Compiled? && optimizerClass.Some? ==> r.optimizer == optimizerClass.value
  {
    if dataset == [] then Returned(metricModule)
    else
      var metric := ChosenMetric(metricFn);
      var optimizer := if optimizerClass.Some? then optimizerClass.value else BootstrapFewShot;
      Compiled(optimizer, metric, dataset, compile(optimizer, metric, metricModule, dataset))
  }

  /** Without a metric of the caller's, the optimizer scores with `mse_metric`. */
  lemma DefaultMetricIsMse<M>(metricModule: M, dataset: seq<Example>, optimizerClass: Option<Optimizer>,
                              compile: (Optimizer, MetricFn, M, seq<Example>) -> M,
                              example: Example, pred: real, trace: Trace)
    requires dataset != []
    ensures var r := OptimizeMetricModule(metricModule, dataset, None, optimizerClass, compile);
            r.Compiled? && r.metric(example, pred, trace) == MseMetric(example, pred, trace)
  {
  }

  // ---------------------------------------------------------------------------
  // The statistics of MetricEvaluator.evaluate

  function Abs(x: real): (r: real)
    ensures r >= 0.0 && (r == x || r == -x)
  {
    if x < 0.0 then -x else x
  }

  function Sum(xs: seq<real>): real {
    if xs == [] then 0.0 else xs[0] + Sum(xs[1..])
  }

  /** `np.sum(xs ** 2)`. */
  function SumSquares(xs: seq<real>): real {
    if xs == [] then 0.0 else xs[0] * xs[0] + SumSquares(xs[1..])
  }

  /** `np.sum(np.abs(xs))`. */
  function SumAbs(xs: seq<real>): real {
    if xs == [] then 0.0 else Abs(xs[0]) + SumAbs(xs[1..])
  }

  /** `np.max(np.abs(xs))`: an upper bound of every magnitude. */
  function MaxAbs(xs: seq<real>): (r: real)
    requires xs != []
    ensures forall k :: 0 <= k < |xs| ==> Abs(xs[k]) <= r
    ensures r >= 0.0
  {
    if |xs| == 1 then Abs(xs[0])
    else
      var rest := MaxAbs(xs[1..]);
      assert forall k :: 1 <= k < |xs| ==> xs[k] == xs[1..][k - 1];
      if Abs(xs[0]) >= rest then Abs(xs[0]) else rest
  }

  function Mean(xs: seq<real>): real
    requires xs != []
  {
    Sum(xs) / |xs| as real
  }

  /** The sum of squared deviations from `m`. */
  function SumSquaredDeviations(xs: seq<real>, m: real): real {
    if xs == [] then 0.0 else (xs[0] - m) * (xs[0] - m) + SumSquaredDeviations(xs[1..], m)
  }

  /** `np.var(xs)`, the population variance; `np.std(xs) > 0` exactly when it is positive. */
  function Variance(xs: seq<real>): (r: real)
    requires xs != []
    ensures r >= 0.0
  {
    NonnegativeDeviations(xs, Mean(xs));
    SumSquaredDeviations(xs, Mean(xs)) / |xs| as real
  }

  /** The per-example errors, `model score - user score`, in dataset order. */
  function Errors(scorer: (string, string, Option<string>) -> real, dataset: seq<Example>): (r: seq<real>)
    ensures |r| == |dataset|
    ensures forall k :: 0 <= k < |dataset| ==>
              r[k] == scorer(dataset[k].input, dataset[k].prediction, dataset[k].gold) - dataset[k].userScore
  {
    if dataset == [] then []
    else
      var e := dataset[|dataset| - 1];
      Errors(scorer, dataset[..|dataset| - 1]) + [scorer(e.input, e.prediction, e.gold) - e.userScore]
  }

  /** `[e.user_score for e in dataset]`. */
  function UserScores(dataset: seq<Example>): (r: seq<real>)
    ensures |r| == |dataset|
  {
    seq(|dataset|, k requires 0 <= k < |dataset| => dataset[k].userScore)
  }

  /** `[metric_module(e.input, e.prediction, gold=e.gold) for e in dataset]`. */
  function ModelScores(scorer: (string, string, Option<string>) -> real, dataset: seq<Example>): (r: seq<real>)
    ensures |r| == |dataset|
  {
    seq(|dataset|, k requires 0 <= k < |dataset| => scorer(dataset[k].input, dataset[k].prediction, dataset[k].gold))
  }

  /** The `correlation` entry: 0.0, or `np.corrcoef` of the two score lists (not computed here). */
  datatype Correlation = Zero | Pearson(users: seq<real>, models: seq<real>)

  /** The dictionary `evaluate` returns: `{}`, or the five entries. */
  datatype Report =
    | NoData
    | Metrics(mse: real, mae: real, maxError: real, numExamples: nat, correlation: Correlation)

  function CorrelationOf(users: seq<real>, models: seq<real>): (r: Correlation)
    requires |users| == |models|
    ensures |users| <= 1 ==> r == Zero
    ensures r.Pearson? ==> r.users == users && r.models == models
  {
    if |users| > 1 && Variance(users) > 0.0 && Variance(models) > 0.0 then Pearson(users, models) else Zero
  }

  /** What `evaluate` returns for this dataset and metric module. */
  function Evaluation(scorer: (string, string, Option<string>) -> real, dataset: seq<Example>): (r: Report)
    ensures r.NoData? <==> dataset == []
    ensures r.Metrics? ==> r.numExamples == |dataset|
  {
    if dataset == [] then NoData
    else Summary(Errors(scorer, dataset), CorrelationOf(UserScores(dataset), ModelScores(scorer, dataset)))
  }

  /** The five entries for a non-empty list of errors. */
  function Summary(errors: seq<real>, correlation: Correlation): (r: Report)
    requires errors != []
    ensures r.Metrics? && r.numExamples == |errors|
  {
    var n := |errors| as real;
    Metrics(SumSquares(errors) / n, SumAbs(errors) / n, MaxAbs(errors), |errors|, correlation)
  }

  class MetricEvaluator {
    /** The metric module's `__call__(input, prediction, gold=...)`. */
    const metricModule: (string, string, Option<string>) -> real
    const dataManager: MetricDataManager

    constructor (metricModule: (string, string, Option<string>) -> real, dataManager: MetricDataManager)
      ensures this.metricModule == metricModule && this.dataManager == dataManager
    {
      this.metricModule := metricModule;
      this.dataManager := dataManager;
    }

    /** The loop of `evaluate`: `model score - user score` for each example, in order. */
    method CollectErrors(dataset: seq<Example>) returns (errors: seq<real>)
      ensures errors == Errors(metricModule, dataset)
    {
      errors := [];
      for i := 0 to |dataset|
        invariant errors == Errors(metricModule, dataset[..i])
      {
        var example := dataset[i];
        var predScore := metricModule(example.input, example.prediction, example.gold);
        var error := predScore - example.userScore;
        assert dataset[..i + 1][..i] == dataset[..i];
        errors := errors + [error];
      }
      assert dataset[..|dataset|] == dataset;
    }

    /**
     * `evaluate()`: the errors collected one example at a time, then the
     * statistics over them and, for more than one example, the correlation.
     */
    method Evaluate(listing: seq<string>) returns (metrics: Report)
      ensures metrics == Evaluation(metricModule, Labeled(Loaded(dataManager.files, listing)))
    {
      var dataset := dataManager.GetLabeledDataset(listing);
      if |dataset| == 0 {
        return NoData;
      }
      var errors := CollectErrors(dataset);
      metrics := Summary(errors, Zero);
      if |dataset| > 1 {
        var userScores := UserScores(dataset);
        var modelScores := ModelScores(metricModule, dataset);
        if Variance(userScores) > 0.0 && Variance(modelScores) > 0.0 {
          metrics := metrics.(correlation := Pearson(userScores, modelScores));
        } else {
          metrics := metrics.(correlation := Zero);
        }
      } else {
        metrics := metrics.(correlation := Zero);
      }
    }
  }

  // ---------------------------------------------------------------------------
  // Properties of the statistics

  lemma {:induction false} SumAbsBounds(xs: seq<real>, bound: real)
    requires forall k :: 0 <= k < |xs| ==> Abs(xs[k]) <= bound
    ensures 0.0 <= SumAbs(xs) <= |xs| as real * bound
  {
    if xs != [] {
      assert forall k :: 0 <= k < |xs[1..]| ==> xs[1..][k] == xs[k + 1];
      SumAbsBounds(xs[1..], bound);
    }
  }

  lemma SquareBelow(x: real, bound: real)
    requires Abs(x) <= bound
    ensures 0.0 <= x * x <= bound * bound
  {
    var a := Abs(x);
    assert x * x == a * a;
    assert a * a <= a * bound <= bound * bound;
  }

  lemma {:induction false} SumSquaresBounds(xs: seq<real>, bound: real, square: real)
    requires forall k :: 0 <= k < |xs| ==> Abs(xs[k]) <= bound
    requires square == bound * bound
    ensures 0.0 <= SumSquares(xs) <= |xs| as real * square
  {
    if xs != [] {
      assert forall k :: 0 <= k < |xs[1..]| ==> xs[1..][k] == xs[k + 1];
      SumSquaresBounds(xs[1..], bound, square);
      SquareBelow(xs[0], bound);
    }
  }

  /** The largest error is one of the errors. */
  lemma {:induction false} MaxAbsAttained(xs: seq<real>) returns (k: nat)
    requires xs != []
    ensures k < |xs| && Abs(xs[k]) == MaxAbs(xs)
  {
    if |xs| == 1 {
      k := 0;
    } else if Abs(xs[0]) >= MaxAbs(xs[1..]) {
      k := 0;
    } else {
      var j := MaxAbsAttained(xs[1..]);
      k := j + 1;
    }
  }

  lemma DivPositive(a: real, n: nat)
    requires a > 0.0 && n > 0
    ensures a / n as real > 0.0
  {
  }

  lemma DivCancel(c: real, n: nat, total: real)
    requires n > 0 && total == n as real * c
    ensures total / n as real == c
  {
  }

  lemma MeanBelow(total: real, n: nat, bound: real)
    requires n > 0 && 0.0 <= total <= n as real * bound
    ensures 0.0 <= total / n as real <= bound
  {
  }

  /** The reported statistics are consistent: 0 <= mae <= max_error and 0 <= mse <= max_error². */
  lemma ErrorBounds(scorer: (string, string, Option<string>) -> real, dataset: seq<Example>)
    requires dataset != []
    ensures var r := Evaluation(scorer, dataset);
            0.0 <= r.mae <= r.maxError && 0.0 <= r.mse <= r.maxError * r.maxError
  {
    SummaryBounds(Errors(scorer, dataset), CorrelationOf(UserScores(dataset), ModelScores(scorer, dataset)));
  }

  lemma SummaryBounds(errors: seq<real>, correlation: Correlation)
    requires errors != []
    ensures var r := Summary(errors, correlation);
            0.0 <= r.mae <= r.maxError && 0.0 <= r.mse <= r.maxError * r.maxError
  {
    var m := MaxAbs(errors);
    SumAbsBounds(errors, m);
    MeanBelow(SumAbs(errors), |errors|, m);
    SquaredMeanBelow(errors, m, m * m);
  }

  lemma SquaredMeanBelow(errors: seq<real>, m: real, square: real)
    requires errors != [] && m == MaxAbs(errors) && square == m * m
    ensures 0.0 <= SumSquares(errors) / |errors| as real <= square
  {
    SumSquaresBounds(errors, m, square);
    MeanBelow(SumSquares(errors), |errors|, square);
  }

  /** `max_error` is the error of some example, not only a bound. */
  lemma MaxErrorAttained(scorer: (string, string, Option<string>) -> real, dataset: seq<Example>)
    returns (k: nat)
    requires dataset != []
    ensures k < |dataset|
    ensures Abs(scorer(dataset[k].input, dataset[k].prediction, dataset[k].gold) - dataset[k].userScore) ==
            Evaluation(scorer, dataset).maxError
  {
    k := MaxAbsAttained(Errors(scorer, dataset));
  }

  /** A perfect metric module has no error at all. */
  lemma {:induction false} PerfectModule(scorer: (string, string, Option<string>) -> real, dataset: seq<Example>)
    requires dataset != []
    requires forall k :: 0 <= k < |dataset| ==>
               scorer(dataset[k].input, dataset[k].prediction, dataset[k].gold) == dataset[k].userScore
    ensures var r := Evaluation(scorer, dataset); r.mse == 0.0 && r.mae == 0.0 && r.maxError == 0.0
  {
    var errors := Errors(scorer, dataset);
    assert forall k :: 0 <= k < |errors| ==> Abs(errors[k]) <= 0.0;
    SumAbsBounds(errors, 0.0);
    SumSquaresBounds(errors, 0.0, 0.0);
    var k := MaxAbsAttained(errors);
  }

  // Variance and spread

  lemma {:induction false} SumConstant(xs: seq<real>, c: real)
    requires forall k :: 0 <= k < |xs| ==> xs[k] == c
    ensures Sum(xs) == |xs| as real * c
  {
    if xs != [] {
      assert forall k :: 0 <= k < |xs[1..]| ==> xs[1..][k] == xs[k + 1];
      SumConstant(xs[1..], c);
    }
  }

  lemma {:induction false} DeviationsVanish(xs: seq<real>, m: real)
    requires forall k :: 0 <= k < |xs| ==> xs[k] == m
    ensures SumSquaredDeviations(xs, m) == 0.0
  {
    if xs != [] {
      assert forall k :: 0 <= k < |xs[1..]| ==> xs[1..][k] == xs[k + 1];
      DeviationsVanish(xs[1..], m);
    }
  }

  /** Each squared deviation is at most the sum of them all. */
  lemma {:induction false} DeviationBelowSum(xs: seq<real>, m: real, k: nat)
    requires k < |xs|
    ensures 0.0 <= (xs[k] - m) * (xs[k] - m) <= SumSquaredDeviations(xs, m)
  {
    SquareSign(xs[0] - m, (xs[0] - m) * (xs[0] - m));
    NonnegativeDeviations(xs[1..], m);
    if k > 0 {
      assert xs[k] == xs[1..][k - 1];
      DeviationBelowSum(xs[1..], m, k - 1);
    } else {
      SquareSign(xs[k] - m, (xs[k] - m) * (xs[k] - m));
    }
  }

  lemma {:induction false} NonnegativeDeviations(xs: seq<real>, m: real)
    ensures SumSquaredDeviations(xs, m) >= 0.0
  {
    if xs != [] {
      SquareSign(xs[0] - m, (xs[0] - m) * (xs[0] - m));
      NonnegativeDeviations(xs[1..], m);
    }
  }

  /**
   * `np.std(xs) > 0` holds exactly when the scores are not all the same:
   * the variance is positive if and only if two scores differ.
   */
  lemma SpreadIffDistinct(xs: seq<real>)
    requires xs != []
    ensures Variance(xs) > 0.0 <==> exists k :: 0 <= k < |xs| && xs[k] != xs[0]
  {
    var n := |xs| as real;
    var m := Mean(xs);
    if k :| 0 <= k < |xs| && xs[k] != xs[0] {
      var j := if xs[k] - m == 0.0 then 0 else k;
      var d := xs[j] - m;
      assert d != 0.0;
      DeviationBelowSum(xs, m, j);
      SquareSign(d, d * d);
      assert 0.0 < d * d <= SumSquaredDeviations(xs, m);
      DivPositive(SumSquaredDeviations(xs, m), |xs|);
    } else {
      SumConstant(xs, xs[0]);
      DivCancel(xs[0], |xs|, Sum(xs));
      DeviationsVanish(xs, m);
    }
  }

  /**
   * `correlation` is 0.0 exactly when there is at most one example, or the
   * user scores or the model scores are all the same.
   */
  lemma CorrelationZeroIff(scorer: (string, string, Option<string>) -> real, dataset: seq<Example>)
    requires dataset != []
    ensures var users := UserScores(dataset);
            var models := ModelScores(scorer, dataset);
            Evaluation(scorer, dataset).correlation == Zero <==>
              |dataset| <= 1
              || (forall k :: 0 <= k < |users| ==> users[k] == users[0])
              || (forall k :: 0 <= k < |models| ==> models[k] == models[0])
  {
    SpreadIffDistinct(UserScores(dataset));
    SpreadIffDistinct(ModelScores(scorer, dataset));
  }
}
