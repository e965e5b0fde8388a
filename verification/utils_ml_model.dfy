/** `BTCModelTrainer` of `utils/ml_model.py`: the trainer returning a triple
    (model path, message, comparison plot), the data preview, and the
    three-step autoregressive forecaster `predict_next_3h`. */
module UtilsMlModel {
  import opened Wrappers
  import opened Indicators
  import opened Dataset
  import MlModel

  // ---------------------------------------------------------------------------
  // train_model
  // ---------------------------------------------------------------------------

  /** The plotted test window: true targets against predictions. */
  datatype Comparison = Comparison(actual: seq<real>, predicted: seq<real>)

  /** The returned triple and the model file afterwards. */
  datatype TrainRun = TrainRun(path: Option<string>, report: MlModel.Report, plot: Option<Comparison>,
                               store: Option<Regressor>)

  /** A missing CSV yields `(None, message, None)` and leaves the model file
      alone; otherwise the model fitted on the chronological prefix is saved
      at `model_path`, that path is returned with a non-negative test MAE, and
      the plot pairs every test target with its prediction. */
  function TrainModel(t: Trainer, csv: Option<seq<Candle>>, store: Option<Regressor>, fit: Fitter)
    : (r: Result<TrainRun, TrainError>)
    ensures csv.None? ==> r == Ok(TrainRun(None, MlModel.CsvNotFound, None, store))
    ensures csv.Some? ==> (r.Ok? <==> FitAndEvaluate(csv.value, fit).Ok?)
    ensures csv.Some? && |Samples(csv.value)| < 2 ==> r == Err(EmptyTrainingSet)
    ensures csv.Some? && r.Ok? ==>
              && r.value.path == Some(t.modelPath)
              && r.value.report.Saved? && r.value.report.path == t.modelPath
              && r.value.report.mae == FitAndEvaluate(csv.value, fit).value.mae >= 0.0
              && r.value.plot.Some?
              && r.value.plot.value.predicted == FitAndEvaluate(csv.value, fit).value.predicted
              && r.value.plot.value.actual == Targets(ChronologicalSplit(Samples(csv.value)).test)
              && |r.value.plot.value.predicted| == |r.value.plot.value.actual| > 0
              && r.value.store == Some(FitAndEvaluate(csv.value, fit).value.model)
    ensures csv.Some? && r.Err? ==> r.error == FitAndEvaluate(csv.value, fit).error
  {
    match csv
    case None => Ok(TrainRun(None, MlModel.CsvNotFound, None, store))
    case Some(cs) =>
      match FitAndEvaluate(cs, fit)
      case Err(e) => Err(e)
      case Ok(ev) =>
        Ok(TrainRun(Some(t.modelPath), MlModel.Saved(t.modelPath, ev.mae),
                    Some(Comparison(ev.actual, ev.predicted)), Some(ev.model)))
  }

  // ---------------------------------------------------------------------------
  // preview_model_data
  // ---------------------------------------------------------------------------

  /** The exception the preview raises as written. */
  datatype PreviewError = UnboundSplitIndex

  /** Rows shown when the full frame is not requested (`head(20)`). */
  const PreviewRows: nat := 20

  /** The preview as written: a missing file yields an empty frame, but after
      any successful read the time axis is sliced with `split_idx`, a name
      the method never binds, so it raises `NameError`. */
  function PreviewAsWritten(csv: Option<seq<Candle>>, returnFull: bool)
    : (r: Result<seq<Sample>, PreviewError>)
    ensures csv.None? ==> r == Ok([])
    ensures r.Ok? <==> csv.None?
  {
    match csv
    case None => Ok([])
    case Some(_) => Err(UnboundSplitIndex)
  }

  /** The preview without the stray slice: a missing file yields an empty
      frame; otherwise the frame holds the rows that survive `dropna`, each
      with 13 rows of history and a target 3 rows ahead, in table order,
      cut to the first 20 unless the full frame is requested. */
  function Preview(csv: Option<seq<Candle>>, returnFull: bool): (r: seq<Sample>)
    ensures csv.None? ==> r == []
    ensures csv.Some? ==>
              && (forall k :: 0 <= k < |r| ==>
                    LongWindow - 1 <= r[k].index && r[k].index + Horizon < |csv.value|)
              && (forall k, k' :: 0 <= k < k' < |r| ==> r[k].index < r[k'].index)
              && (returnFull ==> r == Samples(csv.value))
              && (!returnFull ==> r <= Samples(csv.value))
              && (!returnFull ==>
                    |r| == (if |Samples(csv.value)| <= PreviewRows then |Samples(csv.value)| else PreviewRows))
  {
    match csv
    case None => []
    case Some(cs) =>
      SamplesSpec(cs);
      var rows := Samples(cs);
      if returnFull || |rows| <= PreviewRows then rows else rows[..PreviewRows]
  }

  /** Seventeen rising closes: enough for one complete row. */
  function RisingCandles(): (cs: seq<Candle>)
    ensures |cs| == 17
  {
    seq(17, i requires 0 <= i < 17 => Candle(3600 * i, 100.0 + i as real, 1.0))
  }

  /** On a table where a complete row exists (row 13 of seventeen rising
      closes), the preview as written raises while the corrected preview
      returns that row. */
  lemma PreviewRaisesOnReadableTable()
    ensures PreviewAsWritten(Some(RisingCandles()), true) == Err(UnboundSplitIndex)
    ensures |Preview(Some(RisingCandles()), true)| >= 1
  {
    var cs := RisingCandles();
    var xs := Closes(cs);
    assert Delta(xs, 13) == 1.0;
    RsiColumnSpec(xs, LongWindow, 13);
    SamplesSpec(cs);
  }

  // ---------------------------------------------------------------------------
  // predict_next_3h
  // ---------------------------------------------------------------------------

  /** The two columns the forecaster reads from its working frame. */
  datatype Bar = Bar(close: real, volume: real)

  /** A working-frame row that survived `dropna`: its position in the
      frame, its bar and its features. */
  datatype KeptRow = KeptRow(index: nat, bar: Bar, x: FeatureVector)

  /** Why `predict_next_3h` raised: no model file (`FileNotFoundError`),
      no complete row, or a failing prediction (both `ValueError`). */
  datatype ForecastError = ModelMissing | InsufficientData | PredictionFailed

  /** One forecasting step's prediction and the next working frame. */
  datatype StepOut = StepOut(prediction: real, window: seq<Bar>)

  /** Steps `predict_next_3h` takes. */
  const Steps: nat := 3

  /** Rows handed to the forecaster by its callers (`tail(50)`). */
  const RecentRows: nat := 50

  /** The shortest frame from which all steps can succeed: 14 rows for the
      last step and 12 more for each step before it. */
  const MinForecastRows: nat := LongWindow + (LongWindow - 2) * (Steps - 1)

  function BarsOf(rows: seq<KeptRow>): (r: seq<Bar>)
    ensures |r| == |rows|
  {
    seq(|rows|, i requires 0 <= i < |rows| => rows[i].bar)
  }

  /** The forecaster's input frame: close and volume of the given rows. */
  function RecentBars(ss: seq<Sample>): (r: seq<Bar>)
    ensures |r| == |ss|
  {
    seq(|ss|, i requires 0 <= i < |ss| => Bar(ss[i].candle.close, ss[i].candle.volume))
  }

  function BarCloses(bars: seq<Bar>): seq<real>
  {
    seq(|bars|, i requires 0 <= i < |bars| => bars[i].close)
  }

  function BarVolumes(bars: seq<Bar>): seq<real>
  {
    seq(|bars|, i requires 0 <= i < |bars| => bars[i].volume)
  }

  /** The features of row `i` of the working frame, recomputed from its closes and volumes. */
  function BarFeatures(bars: seq<Bar>, i: nat): Option<FeatureVector>
    requires i < |bars|
  {
    FeaturesAt(BarCloses(bars), IndicatorColumns(BarCloses(bars), BarVolumes(bars)), i)
  }

  function KeptAt(bars: seq<Bar>, i: nat): (r: Option<KeptRow>)
    requires i < |bars|
    ensures r.Some? ==> r.value.index == i
  {
    match BarFeatures(bars, i)
    case Some(x) => Some(KeptRow(i, bars[i], x))
    case None => None
  }

  /** Recompute the indicators on the working frame and keep the rows whose
      features are all defined. Rows 0..12 lack `ma_14`, so at least 13 rows
      go every time. */
  function KeptRows(bars: seq<Bar>): (r: seq<KeptRow>)
    ensures |bars| <= LongWindow - 1 ==> r == []
    ensures |bars| >= LongWindow - 1 ==> |r| <= |bars| - (LongWindow - 1)
  {
    var rows := seq(|bars|, i requires 0 <= i < |bars| => KeptAt(bars, i));
    var k := if |bars| < LongWindow - 1 then |bars| else LongWindow - 1;
    assert forall i :: 0 <= i < k ==> rows[i].None?;
    FilteredSkipsUndefinedPrefix(rows, k);
    Filtered(rows)
  }

  /** The kept rows are exactly the rows of the working frame, from row 13
      on, whose recomputed features are all defined, in frame order, each
      with its own bar and features. */
  lemma KeptRowsSpec(bars: seq<Bar>)
    ensures forall k :: 0 <= k < |KeptRows(bars)| ==>
              var row := KeptRows(bars)[k];
              && LongWindow - 1 <= row.index < |bars|
              && row.bar == bars[row.index]
              && BarFeatures(bars, row.index) == Some(row.x)
    ensures forall k, k' :: 0 <= k < k' < |KeptRows(bars)| ==> KeptRows(bars)[k].index < KeptRows(bars)[k'].index
    ensures forall i :: 0 <= i < |bars| && BarFeatures(bars, i).Some? ==>
              exists k :: 0 <= k < |KeptRows(bars)| && KeptRows(bars)[k].index == i
  {
    var rows := seq(|bars|, i requires 0 <= i < |bars| => KeptAt(bars, i));
    var key := (row: KeptRow) => row.index;
    FilteredKeepsOrder(rows, key);
    assert forall x :: key(x) == x.index;
    forall i | 0 <= i < |bars| && BarFeatures(bars, i).Some?
      ensures exists k :: 0 <= k < |KeptRows(bars)| && KeptRows(bars)[k].index == i
    {
      assert rows[i].Some? && rows[i].value in KeptRows(bars);
    }
  }

  /** One iteration: predict from the last complete row, then append a
      synthetic row with the prediction as close and that row's volume. */
  function Step(model: Regressor, bars: seq<Bar>): (r: Result<StepOut, ForecastError>)
    ensures |bars| <= LongWindow - 1 ==> r == Err(InsufficientData)
    ensures r.Err? ==> r.error != ModelMissing
    ensures r == Err(InsufficientData) <==> |KeptRows(bars)| == 0
    ensures var kept := KeptRows(bars);
            r == Err(PredictionFailed) <==> |kept| > 0 && model(kept[|kept| - 1].x).None?
    ensures r.Ok? ==>
              var kept := KeptRows(bars);
              && |kept| > 0
              && model(kept[|kept| - 1].x) == Some(r.value.prediction)
              && r.value.window == BarsOf(kept) + [Bar(r.value.prediction, kept[|kept| - 1].bar.volume)]
              && |r.value.window| <= |bars| - (LongWindow - 2)
  {
    var kept := KeptRows(bars);
    if |kept| == 0 then Err(InsufficientData)
    else
      var last := kept[|kept| - 1];
      match model(last.x)
      case None => Err(PredictionFailed)
      case Some(p) => Ok(StepOut(p, BarsOf(kept) + [Bar(p, last.bar.volume)]))
  }

  /** `k` iterations feeding each prediction back in; any failure discards
      the predictions made so far. */
  function Rollout(model: Regressor, bars: seq<Bar>, k: nat): (r: Result<seq<real>, ForecastError>)
    ensures r.Ok? ==> |r.value| == k
    ensures r.Err? ==> r.error != ModelMissing
    ensures k > 0 ==>
              (r.Ok? <==> Step(model, bars).Ok? && Rollout(model, Step(model, bars).value.window, k - 1).Ok?)
    ensures k > 0 && r.Ok? ==>
              && r.value[0] == Step(model, bars).value.prediction
              && r.value[1..] == Rollout(model, Step(model, bars).value.window, k - 1).value
    decreases k
  {
    if k == 0 then Ok([])
    else
      match Step(model, bars)
      case Err(e) => Err(e)
      case Ok(s) =>
        match Rollout(model, s.window, k - 1)
        case Err(e) => Err(e)
        case Ok(rest) => Ok([s.prediction] + rest)
  }

  /** With `k` steps to go, a frame shorter than `14 + 12 (k - 1)` rows
      cannot finish: each step keeps at most `len - 13` rows and adds one. */
  lemma {:induction false} RolloutNeedsHistory(model: Regressor, bars: seq<Bar>, k: nat)
    requires k >= 1 && |bars| < LongWindow + (LongWindow - 2) * (k - 1)
    ensures Rollout(model, bars, k).Err?
    decreases k
  {
    if k > 1 {
      match Step(model, bars)
      case Err(_) =>
      case Ok(s) => RolloutNeedsHistory(model, s.window, k - 1);
    }
  }

  /** No model file raises before any computation; otherwise three rounds of
      predicting and feeding back, yielding exactly three predictions or an
      error. Fewer than `MinForecastRows` (38) input rows always raise
      `ValueError`. */
  function PredictNext3h(store: Option<Regressor>, recent: seq<Bar>): (r: Result<seq<real>, ForecastError>)
    ensures store.None? ==> r == Err(ModelMissing)
    ensures r.Ok? ==> |r.value| == Steps
    ensures store.Some? && r.Err? ==> r.error != ModelMissing
    ensures store.Some? && |recent| < MinForecastRows ==> r.Err?
    ensures store.Some? ==> r == Rollout(store.value, recent, Steps)
  {
    match store
    case None => Err(ModelMissing)
    case Some(model) =>
      if |recent| < MinForecastRows then
        RolloutNeedsHistory(model, recent, Steps);
        Rollout(model, recent, Steps)
      else Rollout(model, recent, Steps)
  }
}
