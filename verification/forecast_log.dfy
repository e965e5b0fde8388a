/** The hourly forecast log: rows `forecast_timestamp, forecast_value,
    actual_value, difference`, appended to as a CSV file and later reconciled
    against observed closes. The file is `None` while it does not exist. */
module ForecastLog {
  import opened Wrappers
  import opened Dataset

  /** One hour in seconds: log times are seconds. */
  const Hour: int := 3600

  /** One log row; `actual` and `difference` are empty until resolved. */
  datatype LogRow = LogRow(forecastTime: int, forecastValue: real,
                           actual: Option<real>, difference: Option<real>)

  /** The file after an append, and whether the header line was written. */
  datatype Appended = Appended(rows: seq<LogRow>, wroteHeader: bool)

  /** The rows in a (possibly absent) log file. */
  function RowsOf(file: Option<seq<LogRow>>): seq<LogRow>
  {
    match file
    case None => []
    case Some(rows) => rows
  }

  /** Number of rows logged for time `t`. */
  function CountAt(rows: seq<LogRow>, t: int): (n: nat)
    ensures n <= |rows|
    ensures n == 0 <==> forall i :: 0 <= i < |rows| ==> rows[i].forecastTime != t
  {
    if |rows| == 0 then 0
    else CountAt(rows[..|rows| - 1], t) + (if rows[|rows| - 1].forecastTime == t then 1 else 0)
  }

  /** `to_csv(mode="a", header=not file_exists)`: the row goes after every
      existing row, whatever they hold, and the header is written only when
      the file did not exist yet. */
  function AppendRow(file: Option<seq<LogRow>>, row: LogRow): (r: Appended)
    ensures |r.rows| == |RowsOf(file)| + 1
    ensures r.rows[..|RowsOf(file)|] == RowsOf(file) && r.rows[|RowsOf(file)|] == row
    ensures r.wroteHeader <==> file.None?
    ensures CountAt(r.rows, row.forecastTime) == CountAt(RowsOf(file), row.forecastTime) + 1
  {
    var rows := RowsOf(file) + [row];
    assert rows[..|rows| - 1] == RowsOf(file);
    Appended(rows, file.None?)
  }

  /** The close of the first observed row at time `t`, if any
      (`actual_row["close"].values[0]`). */
  function FirstClose(observed: seq<Candle>, t: int): (r: Option<real>)
    ensures r.None? <==> forall k :: 0 <= k < |observed| ==> observed[k].time != t
    ensures r.Some? ==> exists k :: 0 <= k < |observed| && observed[k].time == t
                          && observed[k].close == r.value
                          && forall j :: 0 <= j < k ==> observed[j].time != t
  {
    if |observed| == 0 then None
    else if observed[0].time == t then Some(observed[0].close)
    else
      var r := FirstClose(observed[1..], t);
      assert forall k :: 1 <= k < |observed| ==> observed[1..][k - 1] == observed[k];
      r
  }

  /** Whether the row is still pending and its time has now been observed. */
  predicate Resolvable(row: LogRow, observed: seq<Candle>)
  {
    row.actual.None? && FirstClose(observed, row.forecastTime).Some?
  }

  /** The log after reconciliation, and whether any row changed (which
      decides whether the file is rewritten). */
  datatype Backfilled = Backfilled(rows: seq<LogRow>, updated: bool)

  /** Visit every row in order; a pending row whose time has been observed
      gets that close as actual value and `actual - forecast` as difference,
      and marks the log as updated. */
  function Backfill(rows: seq<LogRow>, observed: seq<Candle>): (r: Backfilled)
    ensures |r.rows| == |rows|
    ensures forall i :: 0 <= i < |rows| ==>
              r.rows[i].forecastTime == rows[i].forecastTime && r.rows[i].forecastValue == rows[i].forecastValue
    ensures forall i :: 0 <= i < |rows| && rows[i].actual.Some? ==> r.rows[i] == rows[i]
    ensures forall i :: 0 <= i < |rows| && !Resolvable(rows[i], observed) ==> r.rows[i] == rows[i]
    ensures forall i :: 0 <= i < |rows| && Resolvable(rows[i], observed) ==>
              var c := FirstClose(observed, rows[i].forecastTime).value;
              r.rows[i].actual == Some(c) && r.rows[i].difference == Some(c - rows[i].forecastValue)
    ensures r.updated <==> exists i :: 0 <= i < |rows| && Resolvable(rows[i], observed)
  {
    if |rows| == 0 then Backfilled([], false)
    else
      var front := Backfill(rows[..|rows| - 1], observed);
      var row := rows[|rows| - 1];
      assert forall i :: 0 <= i < |rows| - 1 ==> rows[..|rows| - 1][i] == rows[i];
      if Resolvable(row, observed) then
        var c := FirstClose(observed, row.forecastTime).value;
        Backfilled(front.rows + [LogRow(row.forecastTime, row.forecastValue, Some(c), Some(c - row.forecastValue))], true)
      else
        Backfilled(front.rows + [row], front.updated)
  }

  /** A log that was not updated is left exactly as it was, so writing it
      back only when updated loses nothing. */
  lemma BackfillUnchangedUnlessUpdated(rows: seq<LogRow>, observed: seq<Candle>)
    ensures !Backfill(rows, observed).updated ==> Backfill(rows, observed).rows == rows
  {
    var r := Backfill(rows, observed);
    if !r.updated {
      assert forall i :: 0 <= i < |rows| ==> r.rows[i] == rows[i];
    }
  }

  /** Reconciling again against the same observations changes nothing and
      reports no update: every row left pending has no observation. */
  lemma BackfillIdempotent(rows: seq<LogRow>, observed: seq<Candle>)
    ensures Backfill(Backfill(rows, observed).rows, observed) == Backfilled(Backfill(rows, observed).rows, false)
  {
    var once := Backfill(rows, observed).rows;
    var twice := Backfill(once, observed);
    assert forall i :: 0 <= i < |once| ==> !Resolvable(once[i], observed);
    assert forall i :: 0 <= i < |once| ==> twice.rows[i] == once[i];
  }

  /** Append a row, reconcile the log against the observations, and write
      the reconciled log back only when a row changed. The file ends up with
      the reconciled rows either way; the appended row is last, with its time
      and value, and is resolved at once when its time is already observed. */
  function AppendAndBackfill(file: Option<seq<LogRow>>, row: LogRow, observed: seq<Candle>): (r: Backfilled)
    ensures r == Backfill(RowsOf(file) + [row], observed)
    ensures |r.rows| == |RowsOf(file)| + 1
    ensures r.rows[|RowsOf(file)|].forecastTime == row.forecastTime
    ensures r.rows[|RowsOf(file)|].forecastValue == row.forecastValue
    ensures forall i :: 0 <= i < |RowsOf(file)| && RowsOf(file)[i].actual.Some? ==> r.rows[i] == RowsOf(file)[i]
  {
    var appended := AppendRow(file, row);
    var reconciled := Backfill(appended.rows, observed);
    BackfillUnchangedUnlessUpdated(appended.rows, observed);
    var written := if reconciled.updated then reconciled.rows else appended.rows;
    Backfilled(written, reconciled.updated)
  }
}
