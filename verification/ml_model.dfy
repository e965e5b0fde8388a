/** `BTCModelTrainer.train_model` of the top-level `ml_model.py`: the variant
    that returns a pair (model path or nothing, message). The CSV is the
    candle table, `None` when the file does not exist; the persisted model is
    the store at `model_path`, `None` while nothing was saved. */
module MlModel {
  import opened Wrappers
  import opened Dataset

  /** The message of the returned tuple: no CSV, or the saved model's path
      and test MAE. */
  datatype Report = CsvNotFound | Saved(path: string, mae: real)

  /** The returned pair and the model file afterwards. */
  datatype TrainRun = TrainRun(path: Option<string>, report: Report, store: Option<Regressor>)

  /** A missing CSV yields `(None, message)` and leaves the model file
      alone; otherwise the model is fitted on the chronological prefix,
      scored on the suffix with a non-negative MAE, saved at `model_path`
      (overwriting any earlier model) and that path is returned. A fit or
      prediction failure propagates and nothing is saved. */
  function TrainModel(t: Trainer, csv: Option<seq<Candle>>, store: Option<Regressor>, fit: Fitter)
    : (r: Result<TrainRun, TrainError>)
    ensures csv.None? ==> r == Ok(TrainRun(None, CsvNotFound, store))
    ensures csv.Some? ==> (r.Ok? <==> FitAndEvaluate(csv.value, fit).Ok?)
    ensures csv.Some? && |Samples(csv.value)| < 2 ==> r == Err(EmptyTrainingSet)
    ensures csv.Some? && r.Ok? ==>
              && r.value.path == Some(t.modelPath)
              && r.value.report == Saved(t.modelPath, FitAndEvaluate(csv.value, fit).value.mae)
              && r.value.report.mae >= 0.0
              && r.value.store == Some(FitAndEvaluate(csv.value, fit).value.model)
    ensures csv.Some? && r.Err? ==> r.error == FitAndEvaluate(csv.value, fit).error
  {
    match csv
    case None => Ok(TrainRun(None, CsvNotFound, store))
    case Some(cs) =>
      match FitAndEvaluate(cs, fit)
      case Err(e) => Err(e)
      case Ok(ev) => Ok(TrainRun(Some(t.modelPath), Saved(t.modelPath, ev.mae), Some(ev.model)))
  }
}
