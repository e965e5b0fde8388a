/** Feature engineering shared by both trainers: the indicator columns over
    the candle table, the rows that survive `dropna`, the chronological 80/20
    split, the test-set mean absolute error, and fitting an abstract
    regressor on the training prefix. */
module Dataset {
  import opened Wrappers
  import opened Series
  import opened Indicators

  /** One candle of the table: bucket time in seconds, close price, volume. */
  datatype Candle = Candle(time: int, close: real, volume: real)

  /** The five model inputs, in the order `close, ma_8, ma_14, rsi_14, obv`. */
  datatype FeatureVector = FeatureVector(close: real, ma8: real, ma14: real, rsi14: real, obv: real)

  /** A row that survived `dropna`: its row label in the candle table (pandas
      keeps the original index), the candle, its features and its target. */
  datatype Sample = Sample(index: nat, candle: Candle, x: FeatureVector, target: real)

  /** The indicator columns the trainers and the forecaster add to a frame. */
  datatype Columns = Columns(ma8: seq<Option<real>>, ma14: seq<Option<real>>,
                             rsi14: seq<Option<real>>, obv: seq<real>)

  /** A fitted model: maps one feature row to a predicted close, or fails
      (`None`) the way `model.predict` may raise. */
  type Regressor = FeatureVector -> Option<real>

  /** Fitting a regressor to feature rows and their targets. */
  type Fitter = (seq<FeatureVector>, seq<real>) -> Regressor

  /** A `BTCModelTrainer`: where it saves the model. Its CSV path is not a
      field because the table it names is passed to each operation as an
      optional candle sequence. */
  datatype Trainer = Trainer(modelPath: string)

  function Closes(cs: seq<Candle>): (r: seq<real>)
    ensures |r| == |cs|
  {
    seq(|cs|, i requires 0 <= i < |cs| => cs[i].close)
  }

  function Volumes(cs: seq<Candle>): (r: seq<real>)
    ensures |r| == |cs|
  {
    seq(|cs|, i requires 0 <= i < |cs| => cs[i].volume)
  }

  /** The candles of surviving rows, as a frame of observations. */
  function CandlesOf(ss: seq<Sample>): (r: seq<Candle>)
    ensures |r| == |ss|
  {
    seq(|ss|, i requires 0 <= i < |ss| => ss[i].candle)
  }

  /** `ma_8`, `ma_14`, `rsi_14` and `obv` (row 0 counted as "not up") over a
      close and a volume column. */
  function IndicatorColumns(closes: seq<real>, volumes: seq<real>): (c: Columns)
    requires |closes| == |volumes|
    ensures |c.ma8| == |c.ma14| == |c.rsi14| == |c.obv| == |closes|
  {
    Columns(Sma(closes, ShortWindow), Sma(closes, LongWindow), Rsi(closes, LongWindow),
            Obv(closes, volumes, SignedFirst))
  }

  /** The features of row `i`, or `None` when one of them is NaN. */
  function FeaturesAt(closes: seq<real>, c: Columns, i: nat): Option<FeatureVector>
    requires i < |closes| == |c.ma8| == |c.ma14| == |c.rsi14| == |c.obv|
  {
    if c.ma8[i].Some? && c.ma14[i].Some? && c.rsi14[i].Some? then
      Some(FeatureVector(closes[i], c.ma8[i].value, c.ma14[i].value, c.rsi14[i].value, c.obv[i]))
    else None
  }

  /** Row `i` as a training sample, or `None` when a feature or the target is NaN. */
  function SampleAt(cs: seq<Candle>, c: Columns, i: nat): (r: Option<Sample>)
    requires i < |cs| == |c.ma8| == |c.ma14| == |c.rsi14| == |c.obv|
    ensures r.Some? ==> r.value.index == i
  {
    var target := FutureClose(Closes(cs))[i];
    match FeaturesAt(Closes(cs), c, i)
    case Some(x) => if target.Some? then Some(Sample(i, cs[i], x, target.value)) else None
    case None => None
  }

  /** The rows left after `dropna` over the features and the target. */
  function Samples(cs: seq<Candle>): seq<Sample>
  {
    var c := IndicatorColumns(Closes(cs), Volumes(cs));
    Filtered(seq(|cs|, i requires 0 <= i < |cs| => SampleAt(cs, c, i)))
  }

  /** Each surviving row is the sample of its own row label, and labels
      increase. */
  lemma SamplesInOrder(cs: seq<Candle>)
    ensures var c := IndicatorColumns(Closes(cs), Volumes(cs));
            forall k :: 0 <= k < |Samples(cs)| ==>
              Samples(cs)[k].index < |cs| && SampleAt(cs, c, Samples(cs)[k].index) == Some(Samples(cs)[k])
    ensures forall k, k' :: 0 <= k < k' < |Samples(cs)| ==> Samples(cs)[k].index < Samples(cs)[k'].index
  {
    var c := IndicatorColumns(Closes(cs), Volumes(cs));
    var rows := seq(|cs|, i requires 0 <= i < |cs| => SampleAt(cs, c, i));
    var key := (s: Sample) => s.index;
    FilteredKeepsOrder(rows, key);
    assert forall x :: key(x) == x.index;
  }

  /** Every surviving row has at least 13 rows of history and 3 rows ahead,
      carries its own candle, the mean of the last 8 and 14 closes, an RSI in
      [0, 100], and the close 3 rows later as target; rows stay in table
      order; and every row whose features and target are defined survives. */
  lemma SamplesSpec(cs: seq<Candle>)
    ensures forall k :: 0 <= k < |Samples(cs)| ==>
              var s := Samples(cs)[k];
              && LongWindow - 1 <= s.index && s.index + Horizon < |cs|
              && s.candle == cs[s.index]
              && s.x.close == cs[s.index].close
              && s.x.ma8 == Mean(Closes(cs)[s.index + 1 - ShortWindow..s.index + 1])
              && s.x.ma14 == Mean(Closes(cs)[s.index + 1 - LongWindow..s.index + 1])
              && 0.0 <= s.x.rsi14 <= 100.0
              && s.x.obv == Obv(Closes(cs), Volumes(cs), SignedFirst)[s.index]
              && s.target == cs[s.index + Horizon].close
    ensures forall k, k' :: 0 <= k < k' < |Samples(cs)| ==> Samples(cs)[k].index < Samples(cs)[k'].index
    ensures forall i :: LongWindow - 1 <= i && i + Horizon < |cs| && Rsi(Closes(cs), LongWindow)[i].Some? ==>
              exists k :: 0 <= k < |Samples(cs)| && Samples(cs)[k].index == i
  {
    var c := IndicatorColumns(Closes(cs), Volumes(cs));
    var rows := seq(|cs|, i requires 0 <= i < |cs| => SampleAt(cs, c, i));
    SamplesInOrder(cs);
    forall k | 0 <= k < |Samples(cs)|
      ensures 0.0 <= Samples(cs)[k].x.rsi14 <= 100.0
    {
      RsiColumnSpec(Closes(cs), LongWindow, Samples(cs)[k].index);
    }
    forall i | LongWindow - 1 <= i && i + Horizon < |cs| && Rsi(Closes(cs), LongWindow)[i].Some?
      ensures exists k :: 0 <= k < |Samples(cs)| && Samples(cs)[k].index == i
    {
      assert rows[i].Some?;
      var k :| 0 <= k < |Samples(cs)| && Samples(cs)[k] == rows[i].value;
    }
  }

  // ---------------------------------------------------------------------------
  // Chronological split and evaluation
  // ---------------------------------------------------------------------------

  /** `int(len(df) * 0.8)`. */
  function SplitIndex(m: nat): (k: nat)
    ensures k <= m
  {
    (4 * m) / 5
  }

  /** The training prefix and the test suffix, without shuffling. */
  datatype Split<T> = Split(train: seq<T>, test: seq<T>)

  /** `iloc[:split_idx]` and `iloc[split_idx:]`. */
  function ChronologicalSplit<T>(rows: seq<T>): (r: Split<T>)
    ensures r.train + r.test == rows
    ensures |r.train| == SplitIndex(|rows|)
    ensures |rows| >= 1 ==> |r.test| >= 1
    ensures |rows| >= 2 <==> |r.train| >= 1
  {
    var k := SplitIndex(|rows|);
    Split(rows[..k], rows[k..])
  }

  function Inputs(ss: seq<Sample>): (r: seq<FeatureVector>)
    ensures |r| == |ss|
  {
    seq(|ss|, i requires 0 <= i < |ss| => ss[i].x)
  }

  function Targets(ss: seq<Sample>): (r: seq<real>)
    ensures |r| == |ss|
  {
    seq(|ss|, i requires 0 <= i < |ss| => ss[i].target)
  }

  /** `model.predict(X)` over a batch: all predictions, or `None` if any raises. */
  function PredictAll(model: Regressor, xs: seq<FeatureVector>): (r: Option<seq<real>>)
    ensures r.Some? ==> |r.value| == |xs| && forall i :: 0 <= i < |xs| ==> model(xs[i]) == Some(r.value[i])
    ensures r.None? ==> exists i :: 0 <= i < |xs| && model(xs[i]).None?
  {
    if |xs| == 0 then Some([])
    else
      match (PredictAll(model, xs[..|xs| - 1]), model(xs[|xs| - 1]))
      case (Some(front), Some(y)) => Some(front + [y])
      case (None, _) => None
      case (_, None) => None
  }

  /** Absolute error of each prediction. */
  function AbsErrors(actual: seq<real>, predicted: seq<real>): (r: seq<real>)
    requires |actual| == |predicted|
    ensures |r| == |actual|
  {
    seq(|actual|, i requires 0 <= i < |actual| =>
      if actual[i] >= predicted[i] then actual[i] - predicted[i] else predicted[i] - actual[i])
  }

  /** `mean_absolute_error`: non-negative, and zero exactly when every
      prediction is exact. */
  function Mae(actual: seq<real>, predicted: seq<real>): (e: real)
    requires |actual| == |predicted| > 0
    ensures e >= 0.0
    ensures e == 0.0 <==> actual == predicted
  {
    var errs := AbsErrors(actual, predicted);
    SumOfNonNegatives(errs);
    MeanSign(errs);
    AbsErrorsZeroIff(actual, predicted);
    Mean(errs)
  }

  /** All absolute errors vanish exactly when the predictions are exact. */
  lemma AbsErrorsZeroIff(actual: seq<real>, predicted: seq<real>)
    requires |actual| == |predicted|
    ensures (forall i :: 0 <= i < |actual| ==> AbsErrors(actual, predicted)[i] == 0.0) <==> actual == predicted
  {
    if forall i :: 0 <= i < |actual| ==> AbsErrors(actual, predicted)[i] == 0.0 {
      forall i | 0 <= i < |actual|
        ensures actual[i] == predicted[i]
      {
        assert AbsErrors(actual, predicted)[i] == 0.0;
      }
    }
  }

  /** Why training did not produce a model. sklearn refuses to fit an empty
      training set; a failing test-set prediction propagates as well. */
  datatype TrainError = EmptyTrainingSet | PredictionRaised

  /** A fitted model with its test-set targets, predictions and error. */
  datatype Evaluation = Evaluation(model: Regressor, actual: seq<real>, predicted: seq<real>, mae: real)

  /** Fit on the chronological training prefix, predict the test suffix and
      score it. Fewer than two surviving rows leave nothing to fit on, and a
      failing prediction on any test row is the only other failure. */
  function FitAndEvaluate(cs: seq<Candle>, fit: Fitter): (r: Result<Evaluation, TrainError>)
    ensures var ss := Samples(cs);
            var split := ChronologicalSplit(ss);
            && (|ss| < 2 <==> r == Err(EmptyTrainingSet))
            && (r == Err(PredictionRaised) <==>
                  && |ss| >= 2
                  && exists i :: 0 <= i < |split.test| &&
                       fit(Inputs(split.train), Targets(split.train))(split.test[i].x).None?)
            && (r.Ok? ==>
                  && r.value.model == fit(Inputs(split.train), Targets(split.train))
                  && r.value.actual == Targets(split.test)
                  && |r.value.predicted| == |split.test| > 0
                  && (forall i :: 0 <= i < |split.test| ==>
                        r.value.model(split.test[i].x) == Some(r.value.predicted[i]))
                  && r.value.mae >= 0.0
                  && (r.value.mae == 0.0 <==> r.value.predicted == r.value.actual))
  {
    var split := ChronologicalSplit(Samples(cs));
    if |split.train| == 0 then Err(EmptyTrainingSet)
    else
      var model := fit(Inputs(split.train), Targets(split.train));
      assert forall i :: 0 <= i < |split.test| ==> Inputs(split.test)[i] == split.test[i].x;
      match PredictAll(model, Inputs(split.test))
      case None => Err(PredictionRaised)
      case Some(predicted) =>
        var actual := Targets(split.test);
        Ok(Evaluation(model, actual, predicted, Mae(actual, predicted)))
  }

  /** The last `k` rows (`tail(k)`), all of them when there are fewer. */
  function Tail<T>(s: seq<T>, k: nat): (r: seq<T>)
    ensures |r| == if |s| <= k then |s| else k
    ensures r == s[|s| - |r|..]
  {
    if |s| <= k then s else s[|s| - k..]
  }
}
