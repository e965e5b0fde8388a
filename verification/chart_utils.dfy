/** `utils/chart_utils.py`: the RSI helper and the data preparation of
    `draw_price_chart` (indicator columns filled in only when absent, the row
    filter, and the four horizontal guide levels). The drawing itself is not
    modelled; the chart is the list of plotted points and the guide levels. */
module ChartUtils {
  import opened Wrappers
  import opened Series
  import opened Indicators

  /** An input row: `datetime` after coercion (`None` where it did not parse). */
  datatype ChartRow = ChartRow(time: Option<int>, close: real)

  /** The caller's frame: its rows and the indicator columns it may already carry. */
  datatype ChartFrame = ChartFrame(rows: seq<ChartRow>,
                                   rsi14: Option<seq<Option<real>>>,
                                   ma8: Option<seq<Option<real>>>,
                                   ma14: Option<seq<Option<real>>>)

  /** A point drawn on the chart, with the row label it came from. */
  datatype ChartPoint = ChartPoint(index: nat, time: int, close: real, ma8: real, ma14: real,
                                   rsi14: Option<real>)

  /** What the chart shows: the kept points and the guide lines. */
  datatype PriceChart = PriceChart(points: seq<ChartPoint>, guides: seq<real>)

  /** Labelling the guide lines reads the first kept row (`iloc[0]`), which
      raises `IndexError` when no row was kept. */
  datatype ChartError = NoRows

  /** Every column present has one cell per row, as in any data frame. */
  predicate WellFormed(f: ChartFrame)
  {
    && (f.rsi14.Some? ==> |f.rsi14.value| == |f.rows|)
    && (f.ma8.Some? ==> |f.ma8.value| == |f.rows|)
    && (f.ma14.Some? ==> |f.ma14.value| == |f.rows|)
  }

  /** A well-formed frame carrying all three indicator columns. */
  predicate Complete(f: ChartFrame)
  {
    WellFormed(f) && f.rsi14.Some? && f.ma8.Some? && f.ma14.Some?
  }

  function ChartCloses(rows: seq<ChartRow>): seq<real>
  {
    seq(|rows|, i requires 0 <= i < |rows| => rows[i].close)
  }

  /** Add each indicator column only when the frame does not have it yet:
      an existing column is kept cell for cell, a missing one is computed
      from the closes. The rows themselves are untouched. */
  function Completed(f: ChartFrame): (r: ChartFrame)
    requires WellFormed(f)
    ensures Complete(r) && r.rows == f.rows
    ensures f.rsi14.Some? ==> r.rsi14 == f.rsi14
    ensures f.ma8.Some? ==> r.ma8 == f.ma8
    ensures f.ma14.Some? ==> r.ma14 == f.ma14
    ensures f.rsi14.None? ==> r.rsi14 == Some(Rsi(ChartCloses(f.rows), LongWindow))
    ensures f.ma8.None? ==> r.ma8 == Some(Sma(ChartCloses(f.rows), ShortWindow))
    ensures f.ma14.None? ==> r.ma14 == Some(Sma(ChartCloses(f.rows), LongWindow))
  {
    var xs := ChartCloses(f.rows);
    ChartFrame(f.rows,
               if f.rsi14.Some? then f.rsi14 else Some(Rsi(xs, LongWindow)),
               if f.ma8.Some? then f.ma8 else Some(Sma(xs, ShortWindow)),
               if f.ma14.Some? then f.ma14 else Some(Sma(xs, LongWindow)))
  }

  /** Filling in the columns twice is filling them in once: a completed
      frame has nothing left to compute. */
  lemma CompletedIdempotent(f: ChartFrame)
    requires WellFormed(f)
    ensures Completed(Completed(f)) == Completed(f)
  {
  }

  /** Columns computed by the chart follow the indicator definitions:
      `ma_8`/`ma_14` are trailing means defined from rows 7/13 on, and
      `rsi_14` is defined from row 13 on wherever the window moved, within
      [0, 100]. */
  lemma FreshColumns(f: ChartFrame, i: nat)
    requires WellFormed(f) && i < |f.rows|
    ensures var c := Completed(f); var xs := ChartCloses(f.rows);
            && (f.ma8.None? ==> (c.ma8.value[i].Some? <==> i >= ShortWindow - 1))
            && (f.ma8.None? && i >= ShortWindow - 1 ==> c.ma8.value[i].value == Mean(xs[i + 1 - ShortWindow..i + 1]))
            && (f.ma14.None? ==> (c.ma14.value[i].Some? <==> i >= LongWindow - 1))
            && (f.ma14.None? && i >= LongWindow - 1 ==> c.ma14.value[i].value == Mean(xs[i + 1 - LongWindow..i + 1]))
            && (f.rsi14.None? ==>
                  (c.rsi14.value[i].Some? <==>
                     i >= LongWindow - 1 && exists j :: i + 1 - LongWindow <= j <= i && Delta(xs, j) != 0.0))
            && (f.rsi14.None? && c.rsi14.value[i].Some? ==> 0.0 <= c.rsi14.value[i].value <= 100.0)
  {
    RsiColumnSpec(ChartCloses(f.rows), LongWindow, i);
  }

  /** Row `i` has every field the chart filters on: a time, `ma_8` and
      `ma_14`. The RSI column is not among them. */
  predicate Plottable(f: ChartFrame, i: nat)
    requires Complete(f) && i < |f.rows|
  {
    f.rows[i].time.Some? && f.ma8.value[i].Some? && f.ma14.value[i].Some?
  }

  function PointAt(f: ChartFrame, i: nat): Option<ChartPoint>
    requires Complete(f) && i < |f.rows|
  {
    if Plottable(f, i) then
      Some(ChartPoint(i, f.rows[i].time.value, f.rows[i].close,
                      f.ma8.value[i].value, f.ma14.value[i].value, f.rsi14.value[i]))
    else None
  }

  /** `dropna(subset=["datetime", "close", "ma_8", "ma_14"])`. */
  function Points(f: ChartFrame): seq<ChartPoint>
    requires Complete(f)
  {
    Filtered(seq(|f.rows|, i requires 0 <= i < |f.rows| => PointAt(f, i)))
  }

  /** The kept points are exactly the plottable rows, in row order, each
      carrying that row's time, close, averages and (possibly undefined) RSI. */
  lemma PointsSpec(f: ChartFrame)
    requires Complete(f)
    ensures forall k :: 0 <= k < |Points(f)| ==>
              var p := Points(f)[k];
              && p.index < |f.rows| && Plottable(f, p.index)
              && Some(p.time) == f.rows[p.index].time && p.close == f.rows[p.index].close
              && Some(p.ma8) == f.ma8.value[p.index] && Some(p.ma14) == f.ma14.value[p.index]
              && p.rsi14 == f.rsi14.value[p.index]
    ensures forall k, k' :: 0 <= k < k' < |Points(f)| ==> Points(f)[k].index < Points(f)[k'].index
    ensures forall i :: 0 <= i < |f.rows| && Plottable(f, i) ==>
              exists k :: 0 <= k < |Points(f)| && Points(f)[k].index == i
  {
    var cells := seq(|f.rows|, i requires 0 <= i < |f.rows| => PointAt(f, i));
    var key := (p: ChartPoint) => p.index;
    FilteredKeepsOrder(cells, key);
    assert forall x :: key(x) == x.index;
    forall i | 0 <= i < |f.rows| && Plottable(f, i)
      ensures exists k :: 0 <= k < |Points(f)| && Points(f)[k].index == i
    {
      assert cells[i].Some? && cells[i].value in Points(f);
    }
  }

  /** No point is kept exactly when no row is plottable. */
  lemma NoPointsIff(f: ChartFrame)
    requires Complete(f)
    ensures |Points(f)| == 0 <==> forall i :: 0 <= i < |f.rows| ==> !Plottable(f, i)
  {
    PointsSpec(f);
    if |Points(f)| > 0 {
      assert Plottable(f, Points(f)[0].index);
    }
  }

  /** The four guide levels: lowest close, two evenly spaced levels, highest close. */
  function GuideLevels(closes: seq<real>): (r: seq<real>)
    requires |closes| > 0
    ensures |r| == 4
    ensures r[0] == Min(closes) && r[3] == Max(closes)
    ensures r[1] - r[0] == r[2] - r[1] == r[3] - r[2] == (r[3] - r[0]) / 3.0
    ensures r[0] <= r[1] <= r[2] <= r[3]
    ensures forall j :: 0 <= j < |closes| ==> r[0] <= closes[j] <= r[3]
  {
    var lo := Min(closes);
    var hi := Max(closes);
    var step := (hi - lo) / 3.0;
    [lo, lo + step, lo + 2.0 * step, hi]
  }

  function PointCloses(ps: seq<ChartPoint>): (r: seq<real>)
    ensures |r| == |ps|
  {
    seq(|ps|, k requires 0 <= k < |ps| => ps[k].close)
  }

  /** Fill in the absent columns, keep the plottable rows and lay the guide
      lines over their closes. The chart fails exactly when no row is
      plottable; otherwise every kept close lies between the outer guides. */
  function DrawPriceChart(f: ChartFrame): (r: Result<PriceChart, ChartError>)
    requires WellFormed(f)
    ensures r.Err? <==> forall i :: 0 <= i < |f.rows| ==> !Plottable(Completed(f), i)
    ensures r.Ok? ==>
              && r.value.points == Points(Completed(f)) && |r.value.points| > 0
              && r.value.guides == GuideLevels(PointCloses(r.value.points))
              && forall k :: 0 <= k < |r.value.points| ==>
                   r.value.guides[0] <= r.value.points[k].close <= r.value.guides[3]
  {
    var c := Completed(f);
    NoPointsIff(c);
    var ps := Points(c);
    if |ps| == 0 then Err(NoRows)
    else
      var guides := GuideLevels(PointCloses(ps));
      assert forall k :: 0 <= k < |ps| ==> PointCloses(ps)[k] == ps[k].close;
      Ok(PriceChart(ps, guides))
  }
}
