/** The scheduled runner `utils/hourly_forecast_runner.py`: forecast from the
    processed frame and append one already-resolved row to the log. The log
    file is `None` while it does not exist. */
module HourlyRunner {
  import opened Wrappers
  import opened Dataset
  import opened UtilsMlModel
  import opened ForecastLog

  /** How the run ended: exit on an empty frame, an uncaught exception from
      the forecaster, or the row written (and whether with a header). */
  datatype Outcome = Exited | Raised(error: ForecastError) | Written(row: LogRow, wroteHeader: bool)

  /** The outcome and the log file afterwards. */
  datatype Run = Run(outcome: Outcome, file: Option<seq<LogRow>>)

  /** An empty frame exits and a failing forecast aborts, both without
      touching the log. Otherwise the last 50 rows feed the forecaster and
      the result is recorded as `Record` describes. */
  function HourlyRun(processed: seq<Sample>, store: Option<Regressor>, file: Option<seq<LogRow>>)
    : (r: Run)
    ensures |processed| == 0 ==> r == Run(Exited, file)
    ensures |processed| > 0 && store.None? ==> r == Run(Raised(ModelMissing), file)
    ensures |processed| > 0 && store.Some? && |processed| < MinForecastRows ==> r.outcome.Raised? && r.file == file
    ensures r.outcome.Raised? ==> r.file == file
    ensures var p := PredictNext3h(store, RecentBars(Tail(processed, RecentRows)));
            |processed| > 0 && p.Ok? ==> r == Record(processed, p.value, file)
    ensures var p := PredictNext3h(store, RecentBars(Tail(processed, RecentRows)));
            |processed| > 0 && p.Err? ==> r == Run(Raised(p.error), file)
    ensures r.outcome.Written? ==>
              && PredictNext3h(store, RecentBars(Tail(processed, RecentRows))).Ok?
              && r == Record(processed, PredictNext3h(store, RecentBars(Tail(processed, RecentRows))).value, file)
  {
    if |processed| == 0 then Run(Exited, file)
    else
      match PredictNext3h(store, RecentBars(Tail(processed, RecentRows)))
      case Err(e) => Run(Raised(e), file)
      case Ok(values) => Record(processed, values, file)
  }

  /** The row logged is (last time + 3 h, third prediction, current close,
      prediction - current close): resolved at write time, with the opposite
      sign of the difference the backfill writes. It is appended after every
      existing row, with a header only when the file did not exist. */
  function Record(processed: seq<Sample>, values: seq<real>, file: Option<seq<LogRow>>): (r: Run)
    requires |processed| > 0 && |values| == Steps
    ensures r.outcome.Written?
    ensures var row := r.outcome.row;
            var last := processed[|processed| - 1].candle;
            && row.forecastTime == last.time + 3 * Hour
            && row.forecastValue == values[2]
            && row.actual == Some(last.close)
            && row.difference == Some(values[2] - last.close)
            && row.difference.value == -(row.actual.value - row.forecastValue)
            && r.file == Some(RowsOf(file) + [row])
            && (r.outcome.wroteHeader <==> file.None?)
  {
    var value := values[|values| - 1];
    // The last row of `tail(50)` is the frame's last row.
    var last := processed[|processed| - 1].candle;
    var row := LogRow(last.time + 3 * Hour, value, Some(last.close), Some(value - last.close));
    var appended := AppendRow(file, row);
    Run(Written(row, appended.wroteHeader), Some(appended.rows))
  }
}
