/** The indicator columns the dashboards derive from a close (and volume)
    series: trailing simple moving averages, the rolling-mean RSI, on-balance
    volume in its two variants, the `adjust=False` exponential moving average
    and the three-rows-ahead target. Each column has one row per input row;
    an undefined cell (NaN in pandas) is `None`. */
module Indicators {
  import opened Wrappers
  import opened Series

  /** Rows of the long lookback window (`ma_14`, `rsi_14`). */
  const LongWindow: nat := 14

  /** Rows of the short lookback window (`ma_8`). */
  const ShortWindow: nat := 8

  // ---------------------------------------------------------------------------
  // Simple moving average: `close.rolling(window=w).mean()`
  // ---------------------------------------------------------------------------

  /** Mean of the `w` rows ending at row `i`, undefined until `w` rows exist. */
  function WindowMean(xs: seq<real>, w: nat, i: nat): Option<real>
    requires w >= 1 && i < |xs|
  {
    if i + 1 < w then None else Some(Mean(xs[i + 1 - w..i + 1]))
  }

  /** The trailing `w`-row moving average column. */
  function Sma(xs: seq<real>, w: nat): (r: seq<Option<real>>)
    requires w >= 1
    ensures |r| == |xs|
  {
    seq(|xs|, i requires 0 <= i < |xs| => WindowMean(xs, w, i))
  }

  /** Computes the moving-average column in one pass with a sliding window
      sum, the way a rolling mean is evaluated: add the entering row, drop
      the leaving one. */
  method RollingMean(xs: seq<real>, w: nat) returns (r: seq<Option<real>>)
    requires w >= 1
    ensures |r| == |xs|
    ensures forall i :: 0 <= i < |xs| ==> (r[i].Some? <==> i + 1 >= w)
    ensures forall i :: 0 <= i < |xs| && i + 1 >= w ==>
              r[i].value == Sum(xs[i + 1 - w..i + 1]) / (w as real)
    ensures r == Sma(xs, w)
  {
    r := [];
    var acc := 0.0;
    var i := 0;
    while i < |xs|
      invariant 0 <= i <= |xs|
      invariant |r| == i
      invariant acc == Sum(xs[WindowStart(i, w)..i])
      invariant forall j :: 0 <= j < i ==> r[j] == WindowMean(xs, w, j)
    {
      acc := SlideWindow(xs, w, i, acc);
      var cell := if i + 1 >= w then Some(acc / (w as real)) else None;
      assert cell == WindowMean(xs, w, i);
      r := r + [cell];
      i := i + 1;
    }
    assert forall j :: 0 <= j < |xs| ==> r[j] == Sma(xs, w)[j];
  }

  /** The window sum after row `i` enters and, once the window is full, the
      row `w` places back leaves. */
  function SlideWindow(xs: seq<real>, w: nat, i: nat, acc: real): (next: real)
    requires i < |xs| && acc == Sum(xs[WindowStart(i, w)..i])
    ensures next == Sum(xs[WindowStart(i + 1, w)..i + 1])
  {
    SumExtend(xs, WindowStart(i, w), i);
    if i + 1 > w then
      SumShrink(xs, i - w, i + 1);
      acc + xs[i] - xs[i - w]
    else acc + xs[i]
  }

  /** First row of the window a sliding sum over `w` rows holds before row `i` enters. */
  function WindowStart(i: nat, w: nat): nat
  {
    if i >= w then i - w else 0
  }

  // ---------------------------------------------------------------------------
  // RSI: `delta = close.diff()`, gains and losses averaged over `w` rows
  // ---------------------------------------------------------------------------

  /** Change of the close into row `i`. Row 0 has no predecessor; its NaN
      difference fails both `delta > 0` and `delta < 0`, so `where(..., 0)`
      turns it into 0 for both the gain and the loss. */
  function Delta(xs: seq<real>, i: nat): real
    requires i < |xs|
  {
    if i == 0 then 0.0 else xs[i] - xs[i - 1]
  }

  /** `delta.where(delta > 0, 0)`. */
  function Gains(xs: seq<real>): (r: seq<real>)
    ensures |r| == |xs|
  {
    seq(|xs|, i requires 0 <= i < |xs| => if Delta(xs, i) > 0.0 then Delta(xs, i) else 0.0)
  }

  /** `-delta.where(delta < 0, 0)`. */
  function Losses(xs: seq<real>): (r: seq<real>)
    ensures |r| == |xs|
  {
    seq(|xs|, i requires 0 <= i < |xs| => if Delta(xs, i) < 0.0 then -Delta(xs, i) else 0.0)
  }

  /** Mean gain over the `w` rows ending at row `i`. */
  function AvgGain(xs: seq<real>, w: nat, i: nat): (g: real)
    requires 1 <= w <= i + 1 && i < |xs|
    ensures g >= 0.0
  {
    var gs := Gains(xs)[i + 1 - w..i + 1];
    SumOfNonNegatives(gs);
    Mean(gs)
  }

  /** Mean loss over the `w` rows ending at row `i`. */
  function AvgLoss(xs: seq<real>, w: nat, i: nat): (l: real)
    requires 1 <= w <= i + 1 && i < |xs|
    ensures l >= 0.0
  {
    var ls := Losses(xs)[i + 1 - w..i + 1];
    SumOfNonNegatives(ls);
    Mean(ls)
  }

  /** `100 - 100 / (1 + g / l)` evaluated in floating point: a zero average
      loss makes the ratio infinite (RSI 100) unless the average gain is zero
      too, when the ratio is NaN and so is the RSI. */
  function RsiValue(g: real, l: real): Option<real>
    requires g >= 0.0 && l >= 0.0
  {
    if l == 0.0 then (if g == 0.0 then None else Some(100.0))
    else Some(100.0 - 100.0 / (1.0 + g / l))
  }

  /** Row `i` of the `w`-row RSI column. */
  function RsiAt(xs: seq<real>, w: nat, i: nat): Option<real>
    requires w >= 1 && i < |xs|
  {
    if i + 1 < w then None else RsiValue(AvgGain(xs, w, i), AvgLoss(xs, w, i))
  }

  /** The `w`-row RSI column. */
  function Rsi(xs: seq<real>, w: nat): (r: seq<Option<real>>)
    requires w >= 1
    ensures |r| == |xs|
  {
    seq(|xs|, i requires 0 <= i < |xs| => RsiAt(xs, w, i))
  }

  /** `x == y / z` follows from `x * z == y`. */
  lemma DivUnique(x: real, y: real, z: real)
    requires z != 0.0 && x * z == y
    ensures x == y / z
  {
  }

  lemma FracProduct(a: real, b: real)
    requires a > 0.0 && b > 0.0
    ensures (100.0 * a / b) * (b / a) == 100.0
  {
  }

  /** With a positive average loss, `100 - 100 / (1 + g / l)` is `100 g / (g + l)`. */
  lemma RsiRatioForm(g: real, l: real)
    requires g >= 0.0 && l > 0.0
    ensures 100.0 - 100.0 / (1.0 + g / l) == 100.0 * g / (g + l)
  {
    var q := g / l;
    assert q * l == g;
    var d := 1.0 + q;
    assert d * l == g + l;
    DivUnique(d, g + l, l);
    var u := 100.0 * l / (g + l);
    FracProduct(l, g + l);
    assert u * d == 100.0;
    DivUnique(u, 100.0, d);
    assert u * (g + l) == 100.0 * l;
    assert (100.0 - u) * (g + l) == 100.0 * g;
    DivUnique(100.0 - u, 100.0 * g, g + l);
  }

  /** For non-negative average gain `g` and loss `l`, the RSI is defined
      exactly when not both are zero, it then equals `100 g / (g + l)` and
      lies in [0, 100], and it is 100 when there was no loss at all. */
  lemma RsiValueSpec(g: real, l: real)
    requires g >= 0.0 && l >= 0.0
    ensures RsiValue(g, l).Some? <==> g + l > 0.0
    ensures RsiValue(g, l).Some? ==> RsiValue(g, l).value == 100.0 * g / (g + l)
    ensures RsiValue(g, l).Some? ==> 0.0 <= RsiValue(g, l).value <= 100.0
    ensures l == 0.0 && g > 0.0 ==> RsiValue(g, l) == Some(100.0)
  {
    if l > 0.0 {
      RsiRatioForm(g, l);
      assert 100.0 * g / (g + l) <= 100.0;
    } else if g > 0.0 {
      assert 100.0 * g / (g + l) == 100.0;
    }
  }

  /** The average gain is zero exactly when the close never rose within the
      window. */
  lemma AvgGainZeroIff(xs: seq<real>, w: nat, i: nat)
    requires 1 <= w <= i + 1 && i < |xs|
    ensures AvgGain(xs, w, i) == 0.0 <==> forall j :: i + 1 - w <= j <= i ==> Delta(xs, j) <= 0.0
  {
    var lo := i + 1 - w;
    var gs := Gains(xs)[lo..i + 1];
    assert forall k :: 0 <= k < w ==> gs[k] == Gains(xs)[lo + k];
    SumOfNonNegatives(gs);
    MeanSign(gs);
    if AvgGain(xs, w, i) == 0.0 {
      forall j | lo <= j <= i
        ensures Delta(xs, j) <= 0.0
      {
        assert gs[j - lo] == 0.0;
      }
    } else {
      var k :| 0 <= k < w && gs[k] != 0.0;
      assert Delta(xs, lo + k) > 0.0;
    }
  }

  /** The average loss is zero exactly when the close never fell within the
      window. */
  lemma AvgLossZeroIff(xs: seq<real>, w: nat, i: nat)
    requires 1 <= w <= i + 1 && i < |xs|
    ensures AvgLoss(xs, w, i) == 0.0 <==> forall j :: i + 1 - w <= j <= i ==> Delta(xs, j) >= 0.0
  {
    var lo := i + 1 - w;
    var ls := Losses(xs)[lo..i + 1];
    assert forall k :: 0 <= k < w ==> ls[k] == Losses(xs)[lo + k];
    SumOfNonNegatives(ls);
    MeanSign(ls);
    if AvgLoss(xs, w, i) == 0.0 {
      forall j | lo <= j <= i
        ensures Delta(xs, j) >= 0.0
      {
        assert ls[j - lo] == 0.0;
      }
    } else {
      var k :| 0 <= k < w && ls[k] != 0.0;
      assert Delta(xs, lo + k) < 0.0;
    }
  }

  /** The RSI column is undefined before row `w - 1`; from there on it is
      defined exactly when the close moved at least once within the window
      (a flat window gives 0/0), and every defined value lies in [0, 100]. */
  lemma RsiColumnSpec(xs: seq<real>, w: nat, i: nat)
    requires w >= 1 && i < |xs|
    ensures Rsi(xs, w)[i].Some? <==>
              i + 1 >= w && exists j :: i + 1 - w <= j <= i && Delta(xs, j) != 0.0
    ensures Rsi(xs, w)[i].Some? ==> 0.0 <= Rsi(xs, w)[i].value <= 100.0
  {
    if i + 1 >= w {
      var g, l := AvgGain(xs, w, i), AvgLoss(xs, w, i);
      AvgGainZeroIff(xs, w, i);
      AvgLossZeroIff(xs, w, i);
      RsiValueSpec(g, l);
    }
  }

  // ---------------------------------------------------------------------------
  // On-balance volume: `np.where(close.diff() > 0, volume, -volume).cumsum()`
  // ---------------------------------------------------------------------------

  /** How row 0 enters the running sum. In the trainer and forecaster the
      NaN difference of row 0 is "not up", so it contributes `-volume[0]`;
      the indicator page seeds row 0 with 0. */
  datatype FirstRow = SignedFirst | ZeroFirst

  /** The signed volume each row adds. */
  function Flows(xs: seq<real>, vs: seq<real>, first: FirstRow): (r: seq<real>)
    requires |xs| == |vs|
    ensures |r| == |xs|
  {
    seq(|xs|, i requires 0 <= i < |xs| =>
      if i == 0 && first == ZeroFirst then 0.0
      else if Delta(xs, i) > 0.0 then vs[i] else -vs[i])
  }

  /** The on-balance-volume column. */
  function Obv(xs: seq<real>, vs: seq<real>, first: FirstRow): (r: seq<real>)
    requires |xs| == |vs|
    ensures |r| == |xs|
  {
    Cumsum(Flows(xs, vs, first))
  }

  /** Row 0 holds `-volume[0]` (or 0 when seeded with zero), and each later
      row adds its volume when the close strictly rose and subtracts it
      otherwise, a flat close included. */
  lemma ObvSteps(xs: seq<real>, vs: seq<real>, first: FirstRow)
    requires |xs| == |vs|
    ensures |xs| > 0 ==> Obv(xs, vs, first)[0] == (if first == ZeroFirst then 0.0 else -vs[0])
    ensures forall i :: 0 < i < |xs| ==>
              Obv(xs, vs, first)[i] - Obv(xs, vs, first)[i - 1] ==
                (if xs[i] > xs[i - 1] then vs[i] else -vs[i])
  {
    var fs := Flows(xs, vs, first);
    if |xs| > 0 {
      assert fs[..1] == [fs[0]];
      assert Sum(fs[..1]) == Sum([]) + fs[0];
    }
    forall i | 0 < i < |xs|
      ensures Obv(xs, vs, first)[i] - Obv(xs, vs, first)[i - 1] ==
                (if xs[i] > xs[i - 1] then vs[i] else -vs[i])
    {
      CumsumStep(fs, i);
    }
  }

  // ---------------------------------------------------------------------------
  // Exponential moving average: `close.ewm(span=s, adjust=False).mean()`
  // ---------------------------------------------------------------------------

  /** The smoothing factor `2 / (span + 1)` pandas derives from a span. */
  function SpanAlpha(span: nat): (a: real)
    requires span >= 1
    ensures 0.0 < a <= 1.0
  {
    2.0 / ((span + 1) as real)
  }

  /** Row `i` of the EMA: row 0 is the first close, later rows blend the new
      close with the previous average. */
  function EwmAt(xs: seq<real>, alpha: real, i: nat): real
    requires i < |xs|
  {
    if i == 0 then xs[0] else Blend(alpha, xs[i], EwmAt(xs, alpha, i - 1))
  }

  /** `a * x + (1 - a) * y`: the new close `x` weighted by `a`, the previous
      average `y` by the rest. */
  function Blend(a: real, x: real, y: real): real
  {
    a * x + (1.0 - a) * y
  }

  /** The EMA column for a span. */
  function Ewm(xs: seq<real>, span: nat): (r: seq<real>)
    requires span >= 1
    ensures |r| == |xs|
  {
    seq(|xs|, i requires 0 <= i < |xs| => EwmAt(xs, SpanAlpha(span), i))
  }

  /** A blend of two values with a weight in [0, 1] stays between any bounds
      of both. */
  lemma BlendBetween(a: real, x: real, y: real, lo: real, hi: real)
    requires 0.0 <= a <= 1.0
    requires lo <= x <= hi && lo <= y <= hi
    ensures lo <= Blend(a, x, y) <= hi
  {
    assert a * (x - lo) >= 0.0;
    assert (1.0 - a) * (y - lo) >= 0.0;
    assert a * (hi - x) >= 0.0;
    assert (1.0 - a) * (hi - y) >= 0.0;
  }

  /** Every EMA value lies between the smallest and largest close seen so far. */
  lemma {:induction false} EwmBetweenExtremes(xs: seq<real>, alpha: real, i: nat)
    requires 0.0 <= alpha <= 1.0 && i < |xs|
    ensures MinUpTo(xs, i) <= EwmAt(xs, alpha, i) <= MaxUpTo(xs, i)
  {
    if i > 0 {
      EwmBetweenExtremes(xs, alpha, i - 1);
      var lo, hi := MinUpTo(xs, i), MaxUpTo(xs, i);
      assert lo <= MinUpTo(xs, i - 1) && MaxUpTo(xs, i - 1) <= hi;
      BlendBetween(alpha, xs[i], EwmAt(xs, alpha, i - 1), lo, hi);
    }
  }

  // ---------------------------------------------------------------------------
  // Training target: `close.shift(-3)`
  // ---------------------------------------------------------------------------

  /** Rows ahead of the current one whose close is the training target. */
  const Horizon: nat := 3

  /** The close `Horizon` rows ahead, undefined for the last `Horizon` rows. */
  function FutureClose(xs: seq<real>): (r: seq<Option<real>>)
    ensures |r| == |xs|
  {
    seq(|xs|, i requires 0 <= i < |xs| => if i + Horizon < |xs| then Some(xs[i + Horizon]) else None)
  }
}
