# Bitcoin forecast dashboards — verified model of the numeric core

This project is a Dafny model of the computations behind a set of Bitcoin
price dashboards. Those dashboards:

- fetch hourly BTC/USDT candles;
- derive technical indicators from them: moving averages, RSI, on-balance
  volume and an exponential moving average;
- train a regressor that predicts the close three hours ahead;
- roll that regressor forward three hourly steps;
- keep a CSV log of forecasts that is later reconciled against observed closes.

pandas, scikit-learn, the CSV files and the plots are stripped away. What
remains is modelled on immutable sequences:

- an undefined pandas cell (NaN, NaT) is `None`;
- a file that does not exist is `None`;
- a fitted model is an abstract function from a feature row to a prediction
  (`None` when prediction raises);
- fitting is an abstract function from training rows to a model.

Modules follow the source files:

| module | models |
|---|---|
| `Wrappers` | `Option`, `Result`, and `Filtered` (pandas `dropna` over a column of optional rows) |
| `Series` | sums, means, running sums, running minimum and maximum |
| `Indicators` | the trailing moving average and its sliding-window evaluation, the rolling-mean RSI, on-balance volume in its two variants, the `adjust=False` EMA, the 3-row-ahead target |
| `Dataset` | the feature rows that survive `dropna`, the chronological 80/20 split, the test MAE, fitting and scoring |
| `MlModel` | `train_model` of `ml_model.py` (the 2-tuple variant) |
| `UtilsMlModel` | `train_model` (3-tuple), `preview_model_data` and `predict_next_3h` of `utils/ml_model.py` |
| `ForecastLog` | the forecast log: unconditional append, first-match lookup, backfill of pending rows |
| `ForecastApp` | the one-click forecast of `daVinci1618_app.py` (forecast times, direction, log append and backfill) |
| `HourlyRunner` | `utils/hourly_forecast_runner.py` (the log row resolved at write time) |
| `ChartUtils` | `compute_rsi` and the data preparation of `draw_price_chart` in `utils/chart_utils.py` |
| `IndicatorApp` | the indicator page `daVinci1617_app.py` (SMA 20, EMA 20, RSI 14, zero-seeded OBV) |

Edge policies, taken from the code:

- The difference of row 0 is NaN. `delta.where(delta > 0, 0)` turns it into
  a gain of 0 and a loss of 0.
- A rolling mean of width `w` is defined from row `w - 1` on.
- RSI is `100 - 100 / (1 + g / l)`:
  - when `l = 0` and `g > 0` the ratio is infinite and RSI is 100;
  - when both are 0 the ratio is NaN and RSI is undefined.
- In OBV, `np.where(diff > 0, v, -v)` counts a flat close as "down". In the
  trainer and the forecaster, row 0 counts as "down" too and contributes
  `-volume[0]`. The indicator page seeds row 0 with 0.
- `dropna` keeps the original row labels. The rows it keeps need not be
  contiguous: a window with no price movement has an undefined RSI even
  after row 13.
- Times are integer seconds; one hour is 3600.

Appending to the forecast log does not deduplicate by timestamp. A
repeated forecast time yields a second row, and `ForecastLog.AppendRow`
proves the count for that time grows by one.

`preview_model_data` raises on every readable table (see Findings). Both
forecasting entry points call it with `return_full=True`. They are modelled
as consuming the frame the corrected preview returns (`UtilsMlModel.Preview`).
That frame is passed to `ForecastApp.ForecastRun` and `HourlyRunner.HourlyRun`
as their `processed` parameter.

## Model

| member | source | states |
|---|---|---|
| Indicators.RollingMean | utils/ml_model.py:72-73 | the sliding-window moving average is undefined exactly on the first `w - 1` rows, then equals the sum of the last `w` closes over `w`, and agrees with the window-by-window definition `Sma` |
| Indicators.AvgGainZeroIff | utils/ml_model.py:74-75 | the average gain of a window is 0 exactly when no difference in the window is positive |
| Indicators.AvgLossZeroIff | utils/ml_model.py:74-76 | the average loss of a window is 0 exactly when no difference in the window is negative |
| Indicators.RsiValueSpec | utils/chart_utils.py:11-12 | `100 - 100/(1 + g/l)` is defined exactly when `g + l > 0`; it then equals `100 g / (g + l)` and lies in [0, 100]; with `l = 0 < g` it is 100 |
| Indicators.RsiColumnSpec | utils/ml_model.py:74-78 | RSI at row `i` is defined exactly when `i >= w - 1` and some difference in the window (row 0's counted as 0) is non-zero; a defined value lies in [0, 100] |
| Indicators.ObvSteps | utils/ml_model.py:79 | OBV row 0 is `-volume[0]` (or 0 when zero-seeded); every later row differs from the previous one by `+volume` when the close strictly rose and `-volume` otherwise, flat included |
| Indicators.SpanAlpha | daVinci1617_app.py:15 | the smoothing factor `2/(span+1)` of a positive span lies in (0, 1] |
| Indicators.EwmBetweenExtremes | daVinci1617_app.py:15 | every EMA value lies between the smallest and the largest close up to that row |
| Dataset.SamplesInOrder | utils/ml_model.py:82 | each surviving row is the row built at its own label, and labels strictly increase |
| Dataset.SamplesSpec | utils/ml_model.py:72-86 | a surviving row has label in [13, n - 4], its own candle and close, `ma_8`/`ma_14` equal to the means of the last 8/14 closes, RSI in [0, 100], the OBV of its row, and the close 3 rows later as target; order is kept; every row with defined RSI, history and target survives |
| Dataset.ChronologicalSplit | utils/ml_model.py:89-91 | train followed by test is exactly the surviving rows in order; train has ⌊4m/5⌋ rows; test is non-empty when any row survives; train is non-empty exactly when at least two rows survive |
| Dataset.PredictAll | utils/ml_model.py:98 | predicting a batch yields one prediction per row, each the model's prediction for that row, and fails exactly when the model fails on some row |
| Dataset.Mae | utils/ml_model.py:99 | the mean absolute error is non-negative and is 0 exactly when the predictions equal the targets |
| Dataset.FitAndEvaluate | utils/ml_model.py:84-99 | with fewer than two surviving rows the fit raises on an empty training set; otherwise prediction raises exactly when the model fitted on the training prefix fails on some test row, and in every other case the fit succeeds: the model is that fit, scored on the test suffix with a non-negative MAE that is 0 exactly for a perfect prediction |
| Dataset.Tail | daVinci1618_app.py:18 | `tail(k)` keeps the last `min(k, n)` rows |
| MlModel.TrainModel | ml_model.py:15-50 | a missing CSV yields `(None, message)` and leaves the model store unchanged; otherwise success returns the constructor's `model_path`, a non-negative MAE, and stores the fitted model; it succeeds exactly when fitting and scoring do, and a failure carries the same error |
| UtilsMlModel.TrainModel | utils/ml_model.py:65-125 | a missing CSV yields `(None, message, None)` and persists nothing; otherwise success returns `model_path` and the non-negative test MAE of the fitted model, plots each test target against that model's prediction for it, and stores the fitted model; it succeeds exactly when fitting and scoring do, and a failure carries the same error |
| UtilsMlModel.PreviewAsWritten | utils/ml_model.py:17-36 | as written, a missing file yields an empty frame and every readable table raises `NameError` |
| UtilsMlModel.Preview | utils/ml_model.py:17-62 | the intended preview: empty for a missing file, otherwise the surviving rows in table order with 13 rows of history and 3 rows ahead, all of them when the full frame is requested and otherwise exactly the first `min(20, m)` of the `m` surviving rows |
| UtilsMlModel.PreviewRaisesOnReadableTable | utils/ml_model.py:36 | on a readable 17-row table the preview as written raises `NameError` while the intended preview returns a row |
| UtilsMlModel.KeptRows | utils/ml_model.py:137-147 | recomputing the indicators and dropping incomplete rows leaves nothing from 13 rows or fewer and at most `len - 13` rows otherwise |
| UtilsMlModel.KeptRowsSpec | utils/ml_model.py:137-147 | the kept rows are exactly the frame rows from row 13 on whose recomputed features are all defined, in frame order, each with its own bar and features |
| UtilsMlModel.Step | utils/ml_model.py:137-169 | one iteration raises `ValueError` for lack of data exactly when no row stays complete (always on 13 rows or fewer) and for a failed prediction exactly when the model fails on the last complete row; otherwise it predicts from that row and the next frame is the kept rows plus one row with the prediction as close and that row's volume, at most `len - 12` rows |
| UtilsMlModel.Rollout | utils/ml_model.py:135-171 | `k` iterations succeed exactly when the first step and the `k - 1` iterations on the frame it produces succeed; the first prediction is that step's and the rest are those iterations', `k` in all |
| UtilsMlModel.RolloutNeedsHistory | utils/ml_model.py:135-169 | with `k` iterations to go, a frame shorter than `14 + 12 (k - 1)` rows always raises |
| UtilsMlModel.PredictNext3h | utils/ml_model.py:127-171 | a missing model raises `FileNotFoundError` before any computation; with a model it is the three chained iterations on the given frame, three predictions or the first error; fewer than 38 rows always raise `ValueError` |
| ForecastLog.AppendRow | daVinci1618_app.py:37-40 | the new row goes after every existing row, which are kept unchanged; the header is written exactly when the file did not exist; the number of rows for that forecast time grows by one, so duplicates are kept |
| ForecastLog.FirstClose | daVinci1618_app.py:47-50 | the looked-up close is that of the first observed row at the forecast time, and there is none exactly when no row has that time |
| ForecastLog.Backfill | daVinci1618_app.py:43-54 | row count, order, times and forecast values are kept; resolved rows and pending rows without observation never change; a pending observed row gets that close and `actual - forecast`; the log counts as updated exactly when some row was resolvable |
| ForecastLog.BackfillUnchangedUnlessUpdated | daVinci1618_app.py:44-56 | a log reported as not updated is exactly the log read, so skipping the rewrite loses nothing |
| ForecastLog.BackfillIdempotent | daVinci1618_app.py:44-56 | reconciling again against the same observations changes nothing and reports no update |
| ForecastLog.AppendAndBackfill | daVinci1618_app.py:37-56 | after appending a row, reconciling and writing back only when updated, the file holds the reconciled log either way: one row more, the new row last with its time and value, and every previously resolved row unchanged |
| ForecastApp.RisingSpec | daVinci1618_app.py:25-27 | with a positive current close the arrow is up exactly when the final forecast is higher; an unchanged forecast is shown as down |
| ForecastApp.ForecastTimes | daVinci1618_app.py:21-23 | the forecast times are the last time plus one, two and three hours |
| ForecastApp.ForecastRun | daVinci1618_app.py:12-19 | an empty frame stops with the log untouched; a missing model, too short a frame or a failing prediction reports an error with the log untouched; a forecast on the last 50 rows that succeeds is always recorded as `Record` describes, and one that fails is reported with its error |
| ForecastApp.Record | daVinci1618_app.py:20-56 | the forecast times are the last time plus one to three hours and the current close is the last close; the logged row is (last time + 3 h, third prediction, empty, empty), and the file afterwards is the log `AppendAndBackfill` produces from it, rewritten exactly when a row changed; the arrow is the direction `Rising` of current close and third prediction (see `RisingSpec`) |
| HourlyRunner.HourlyRun | utils/hourly_forecast_runner.py:12-18 | an empty frame exits and a failing forecast on the last 50 rows aborts with its error, both with the log untouched; a forecast that succeeds is always written as `Record` describes |
| HourlyRunner.Record | utils/hourly_forecast_runner.py:21-38 | the logged row is (last time + 3 h, third prediction, current close, prediction - close), the opposite sign of the backfill's difference; it is appended after every existing row, with a header exactly when the file did not exist |
| ChartUtils.Completed | utils/chart_utils.py:22-29 | an indicator column already in the frame is kept cell for cell; only absent columns are computed from the closes; the rows are untouched |
| ChartUtils.CompletedIdempotent | utils/chart_utils.py:22-29 | completing a completed frame changes nothing |
| ChartUtils.FreshColumns | utils/chart_utils.py:6-29 | computed `ma_8`/`ma_14` are defined from rows 7/13 on as means of the last 8/14 closes; computed `rsi_14` is defined from row 13 on exactly where the window moved, and lies in [0, 100] |
| ChartUtils.PointsSpec | utils/chart_utils.py:31 | the plotted points are exactly the rows with time, `ma_8` and `ma_14` defined (RSI not required), in row order, with that row's values |
| ChartUtils.GuideLevels | utils/chart_utils.py:34-37 | four levels: the lowest close, two evenly spaced levels, the highest close; non-decreasing, with equal gaps of a third of the range, and every close lies between the first and the last |
| ChartUtils.DrawPriceChart | utils/chart_utils.py:15-48 | the chart fails (the first-row lookup for the labels) exactly when no row is plottable; otherwise it shows the plotted points with guide levels over their closes, which all lie between the outer guides |
| IndicatorApp.Sma20Spec | daVinci1617_app.py:14 | `sma_20` is undefined on the first 19 rows and is the mean of the 20 closes ending at the row from then on |
| IndicatorApp.Ema20Spec | daVinci1617_app.py:15 | `ema_20` starts at the first close, then each row is `2/21 · close + 19/21 · previous`, and it stays within the range of the closes seen so far |
| IndicatorApp.Rsi14Spec | daVinci1617_app.py:18-22 | `rsi_14` is defined from row 13 on exactly where the close moved within the window, lies in [0, 100], and is 100 when the window only rose |
| IndicatorApp.ObvSpec | daVinci1617_app.py:25-29 | `obv` is 0 on row 0; each later row adds the volume when the close strictly rose and subtracts it otherwise |

## Left out

- CSV reading and writing, the HTTP candle fetch and `main.py`. Candle tables and the forecast log are in-memory sequences; a missing file is `None`.
- A CSV that exists but cannot be parsed (`preview_model_data` returns an empty frame): the model only distinguishes missing and readable files.
- Random-forest fitting and prediction, and `joblib` persistence. The model and the fitter are abstract functions, and the model file is an optional stored model; nothing is claimed about accuracy.
- IEEE floating point. NaN and infinity become `None` or an explicit case. `int(len * 0.8)` is modelled as `(4 m) / 5`. The double nearest 0.8 lies slightly above 0.8, so the float product is never rounded below a whole number it should reach; the two agree for every table size these dashboards handle.
- Datetime parsing, `strftime` and timestamp conversion. Times are integer seconds, and a log timestamp matches a frame row when the seconds are equal.
- `pd.to_numeric(..., errors="coerce")` on the chart's close column: closes are taken to be numeric. An unparsable `datetime` is modelled (`None`).
- `dropna` over `datetime`, `open`, `high` and `low` in the preview: candles are taken to be complete in those columns.
- `compute_rsi` with `window = 0`: every window is at least 1.
- All plotting and UI: matplotlib and Streamlit calls, the comparison plot's time axis, chart titles and formatting, and the arrow colours beyond the up/down decision.
- Diagnostic strings: the MAE percentage, the delta percentage text, and the success and error messages.
- `os.makedirs` for the model and data directories.
- `indicator_dashboard.py`, `chart1.py` and the root `chart_utils.py`: their indicators come from an external library or they only draw.
- The exception handling around the one-click forecast in `daVinci1618_app.py`: a raised error is reported as an outcome, and how it is displayed is not modelled.

## Findings

| source | as written | input that shows it | evidently intended | confidence | as-written member | corrected member |
|---|---|---|---|---|---|---|
| utils/ml_model.py:36 | after a successful read, `preview_model_data` slices the time axis with `split_idx`, a name it never assigns, so it raises `NameError` | any readable candle table, e.g. 17 candles with closes 100, 101, …, 116 | the stray slice is a leftover: the preview returns the rows that survive `dropna`, all of them with `return_full=True`, otherwise the first 20 | high; not executed | UtilsMlModel.PreviewAsWritten, UtilsMlModel.PreviewRaisesOnReadableTable | UtilsMlModel.Preview |
