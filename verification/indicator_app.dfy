/** The indicator page `daVinci1617_app.py`: the 20-row simple and
    exponential moving averages, the 14-row RSI and the zero-seeded
    on-balance volume it derives from the candle table before plotting. */
module IndicatorApp {
  import opened Wrappers
  import opened Series
  import opened Indicators

  /** Window of `sma_20` and span of `ema_20`. */
  const Span: nat := 20

  /** The four derived columns, one cell per candle. */
  datatype IndicatorFrame = IndicatorFrame(sma20: seq<Option<real>>, ema20: seq<real>,
                                           rsi14: seq<Option<real>>, obv: seq<real>)

  /** The columns for a table of closes and volumes (one volume per close). */
  function IndicatorFrameOf(closes: seq<real>, volumes: seq<real>): (r: IndicatorFrame)
    requires |closes| == |volumes|
    ensures |r.sma20| == |r.ema20| == |r.rsi14| == |r.obv| == |closes|
  {
    IndicatorFrame(Sma(closes, Span), Ewm(closes, Span), Rsi(closes, LongWindow),
                   Obv(closes, volumes, ZeroFirst))
  }

  /** `sma_20` is undefined on the first 19 rows and is the mean of the 20
      closes ending at the row from then on. */
  lemma Sma20Spec(closes: seq<real>, volumes: seq<real>, i: nat)
    requires |closes| == |volumes| && i < |closes|
    ensures IndicatorFrameOf(closes, volumes).sma20[i].Some? <==> i >= Span - 1
    ensures i >= Span - 1 ==>
              IndicatorFrameOf(closes, volumes).sma20[i].value == Sum(closes[i + 1 - Span..i + 1]) / 20.0
  {
  }

  /** `ema_20` starts at the first close and then moves towards each new
      close by the factor 2/21; it never leaves the range of the closes seen
      so far. */
  lemma Ema20Spec(closes: seq<real>, volumes: seq<real>, i: nat)
    requires |closes| == |volumes| && i < |closes|
    ensures var e := IndicatorFrameOf(closes, volumes).ema20;
            && e[0] == closes[0]
            && (i > 0 ==> e[i] == (2.0 / 21.0) * closes[i] + (1.0 - 2.0 / 21.0) * e[i - 1])
            && MinUpTo(closes, i) <= e[i] <= MaxUpTo(closes, i)
  {
    var a := SpanAlpha(Span);
    assert a == 2.0 / 21.0;
    var e := IndicatorFrameOf(closes, volumes).ema20;
    assert e[0] == EwmAt(closes, a, 0) == closes[0];
    if i > 0 {
      assert e[i] == EwmAt(closes, a, i) == Blend(a, closes[i], EwmAt(closes, a, i - 1));
      assert e[i - 1] == EwmAt(closes, a, i - 1);
    }
    EwmBetweenExtremes(closes, a, i);
  }

  /** `rsi_14` is defined from row 13 on wherever the close moved within the
      window, and then lies in [0, 100]; it is 100 when the window only rose. */
  lemma Rsi14Spec(closes: seq<real>, volumes: seq<real>, i: nat)
    requires |closes| == |volumes| && i < |closes|
    ensures var r := IndicatorFrameOf(closes, volumes).rsi14[i];
            && (r.Some? <==> i >= LongWindow - 1 &&
                              exists j :: i + 1 - LongWindow <= j <= i && Delta(closes, j) != 0.0)
            && (r.Some? ==> 0.0 <= r.value <= 100.0)
            && (i >= LongWindow - 1 ==>
                  (AvgLoss(closes, LongWindow, i) == 0.0 < AvgGain(closes, LongWindow, i) ==> r == Some(100.0)))
  {
    RsiColumnSpec(closes, LongWindow, i);
    if i >= LongWindow - 1 {
      RsiValueSpec(AvgGain(closes, LongWindow, i), AvgLoss(closes, LongWindow, i));
    }
  }

  /** `obv` is 0 on row 0; each later row adds its volume when the close
      strictly rose and subtracts it otherwise. */
  lemma ObvSpec(closes: seq<real>, volumes: seq<real>)
    requires |closes| == |volumes|
    ensures var o := IndicatorFrameOf(closes, volumes).obv;
            && (|closes| > 0 ==> o[0] == 0.0)
            && forall i :: 0 < i < |closes| ==>
                 o[i] - o[i - 1] == (if closes[i] > closes[i - 1] then volumes[i] else -volumes[i])
  {
    ObvSteps(closes, volumes, ZeroFirst);
  }
}
