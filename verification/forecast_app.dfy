/** The one-click forecast of `daVinci1618_app.py`: forecast three hours
    ahead from the processed frame, log the three-hour forecast as pending,
    then resolve pending log rows whose time now appears in the frame. The
    processed frame is the trainer's full preview; the log file is `None`
    while it does not exist. */
module ForecastApp {
  import opened Wrappers
  import opened Dataset
  import opened UtilsMlModel
  import opened ForecastLog

  /** What the page shows: the three forecast times and values, the current
      close, and whether the change is shown as up (green) or down (red). */
  datatype Forecast = Forecast(times: seq<int>, values: seq<real>, current: real, rising: bool)

  /** How the run ended: stopped on an empty frame, an exception reported on
      the page, or a completed forecast (with whether the log was rewritten). */
  datatype Outcome = NoValidData | Raised(error: ForecastError) | Completed(forecast: Forecast, rewritten: bool)

  /** The outcome and the log file afterwards. */
  datatype Run = Run(outcome: Outcome, file: Option<seq<LogRow>>)

  /** `delta_pct > 0` for `delta_pct = (final - current) / current * 100`
      in floating point: with a zero current close the quotient is +inf,
      -inf or NaN, so only a positive forecast counts as up. */
  function Rising(current: real, final: real): bool
  {
    if current == 0.0 then final > 0.0 else (final - current) / current * 100.0 > 0.0
  }

  /** For a positive current close the arrow is up exactly when the forecast
      is higher; an unchanged forecast is always shown as down. */
  lemma RisingSpec(current: real, final: real)
    ensures current > 0.0 ==> (Rising(current, final) <==> final > current)
    ensures current < 0.0 ==> (Rising(current, final) <==> final < current)
    ensures final == current ==> !Rising(current, final)
  {
    if current != 0.0 {
      var q := (final - current) / current;
      assert q * current == final - current;
      if current > 0.0 {
        assert q > 0.0 <==> final > current;
      } else {
        assert q > 0.0 <==> final < current;
      }
    }
  }

  /** The three forecast times: one, two and three hours after `t`. */
  function ForecastTimes(t: int): (ts: seq<int>)
    ensures |ts| == Steps
    ensures forall i :: 0 <= i < Steps ==> ts[i] == t + (i + 1) * Hour
  {
    [t + Hour, t + 2 * Hour, t + 3 * Hour]
  }

  /** An empty frame stops before anything is written, and a failing
      forecast is reported with the log untouched. Otherwise the forecast is
      made from the last 50 rows and recorded as `Record` describes. */
  function ForecastRun(processed: seq<Sample>, store: Option<Regressor>, file: Option<seq<LogRow>>)
    : (r: Run)
    ensures |processed| == 0 ==> r == Run(NoValidData, file)
    ensures |processed| > 0 && store.None? ==> r == Run(Raised(ModelMissing), file)
    ensures |processed| > 0 && store.Some? && |processed| < MinForecastRows ==> r.outcome.Raised? && r.file == file
    ensures r.outcome.Raised? ==> r.file == file
    ensures var p := PredictNext3h(store, RecentBars(Tail(processed, RecentRows)));
            |processed| > 0 && p.Ok? ==> r == Record(processed, p.value, file)
    ensures var p := PredictNext3h(store, RecentBars(Tail(processed, RecentRows)));
            |processed| > 0 && p.Err? ==> r == Run(Raised(p.error), file)
    ensures r.outcome.Completed? ==>
              && PredictNext3h(store, RecentBars(Tail(processed, RecentRows))).Ok?
              && r == Record(processed, PredictNext3h(store, RecentBars(Tail(processed, RecentRows))).value, file)
  {
    if |processed| == 0 then Run(NoValidData, file)
    else
      match PredictNext3h(store, RecentBars(Tail(processed, RecentRows)))
      case Err(e) => Run(Raised(e), file)
      case Ok(values) => Record(processed, values, file)
  }

  /** Times are the last row's time plus one, two and three hours; the row
      (time + 3 h, third prediction, empty, empty) is appended without
      looking at existing rows; then pending rows are resolved against the
      frame, and the file is rewritten only when a row changed. The arrow
      compares the third prediction with the current close. */
  function Record(processed: seq<Sample>, values: seq<real>, file: Option<seq<LogRow>>): (r: Run)
    requires |processed| > 0 && |values| == Steps
    ensures r.outcome.Completed?
    ensures var f := r.outcome.forecast;
            var last := processed[|processed| - 1].candle;
            && f.values == values
            && f.times == ForecastTimes(last.time)
            && f.current == last.close
            && f.rising == Rising(f.current, values[2])
    ensures var last := processed[|processed| - 1].candle;
            var log := AppendAndBackfill(file, LogRow(last.time + 3 * Hour, values[2], None, None), CandlesOf(processed));
            r.file == Some(log.rows) && r.outcome.rewritten == log.updated
  {
    // The last row of `tail(50)` is the frame's last row.
    var last := processed[|processed| - 1].candle;
    var times := ForecastTimes(last.time);
    var final := values[|values| - 1];
    var log := AppendAndBackfill(file, LogRow(times[2], final, None, None), CandlesOf(processed));
    Run(Completed(Forecast(times, values, last.close, Rising(last.close, final)), log.updated), Some(log.rows))
  }
}
