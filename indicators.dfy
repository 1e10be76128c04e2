/**
 * The technical-indicator helpers of app.py (lines 202-274), over exact reals.
 *
 * `sma` and `compute_sma_list` are expressions and stay functions.  `ema`,
 * `macd_line`, `rsi` and `atr` run accumulator loops: each is a method with the
 * loop, proved equal to a specification function (`EmaOf`, `MacdLineOf`,
 * `RsiOf`, `AtrOf`), and the indicator's properties are lemmas about that
 * function.  A series that is too short gives `None`.
 */
module Indicators {
  import opened Options

  /** The fields of a candle record that `atr` reads. */
  datatype Candle = Candle(high: real, low: real, close: real)

  /** Python's `sum` of a list of floats, accumulated from the left. */
  function Sum(s: seq<real>): real
  {
    if |s| == 0 then 0.0 else Sum(s[..|s| - 1]) + s[|s| - 1]
  }

  function Abs(x: real): real
  {
    if x < 0.0 then -x else x
  }

  function Max3(a: real, b: real, c: real): real
  {
    if a >= b && a >= c then a else if b >= c then b else c
  }

  lemma {:induction false} SumAtLeast(s: seq<real>, lo: real)
    requires forall i :: 0 <= i < |s| ==> lo <= s[i]
    ensures |s| as real * lo <= Sum(s)
  {
    if |s| > 0 {
      SumAtLeast(s[..|s| - 1], lo);
      assert |s| as real * lo == (|s| - 1) as real * lo + lo;
    }
  }

  lemma {:induction false} SumAtMost(s: seq<real>, hi: real)
    requires forall i :: 0 <= i < |s| ==> s[i] <= hi
    ensures Sum(s) <= |s| as real * hi
  {
    if |s| > 0 {
      SumAtMost(s[..|s| - 1], hi);
      assert |s| as real * hi == (|s| - 1) as real * hi + hi;
    }
  }

  /** A quotient by a positive count keeps the bounds `n*lo <= x <= n*hi` as `lo <= x/n <= hi`. */
  lemma MeanWithin(x: real, n: real, lo: real, hi: real)
    requires n > 0.0 && n * lo <= x <= n * hi
    ensures lo <= x / n <= hi
  {
    assert x / n * n == x;
  }

  // ---------------------------------------------------------------------------
  // sma, compute_sma_list (app.py:202-205, 216-217)
  // ---------------------------------------------------------------------------

  /**
   * `sma(values, period)`: the mean of the last `period` values.  Python divides
   * by `period`, so a zero period is not a legal argument.
   */
  function Sma(values: seq<real>, period: nat): (r: Option<real>)
    requires period > 0
    ensures r.None? <==> |values| < period
  {
    if |values| < period then None
    else Some(Sum(values[|values| - period..]) / period as real)
  }

  /** The moving average lies between the least and the greatest value of its window. */
  lemma SmaWithin(values: seq<real>, period: nat, lo: real, hi: real)
    requires period > 0 && |values| >= period
    requires forall i :: |values| - period <= i < |values| ==> lo <= values[i] <= hi
    ensures Sma(values, period).Some?
    ensures lo <= Sma(values, period).value <= hi
  {
    var w := values[|values| - period..];
    assert forall i :: 0 <= i < |w| ==> w[i] == values[|values| - period + i];
    SumAtLeast(w, lo);
    SumAtMost(w, hi);
    MeanWithin(Sum(w), period as real, lo, hi);
  }

  /**
   * `compute_sma_list(values, period)`: at every index, the moving average of
   * the prefix that ends there.  A zero period divides by zero as soon as there
   * is one value.
   */
  function SmaList(values: seq<real>, period: nat): (r: seq<Option<real>>)
    requires period > 0 || |values| == 0
    ensures |r| == |values|
    ensures forall i :: 0 <= i < |values| ==> r[i] == Sma(values[..i + 1], period)
  {
    var r := seq(|values|, i requires 0 <= i < |values| =>
      if i + 1 >= period then Some(Sum(values[i - period + 1..i + 1]) / period as real) else None);
    assert forall i :: 0 <= i < |values| ==> r[i] == Sma(values[..i + 1], period) by {
      forall i | 0 <= i < |values| ensures r[i] == Sma(values[..i + 1], period) {
        if i + 1 >= period {
          assert values[..i + 1][i + 1 - period..] == values[i - period + 1..i + 1];
        }
      }
    }
    r
  }

  // ---------------------------------------------------------------------------
  // ema (app.py:207-214)
  // ---------------------------------------------------------------------------

  /** The smoothing factor `2 / (period + 1)`. */
  function Smoothing(period: nat): real
  {
    2.0 / (period as real + 1.0)
  }

  lemma SmoothingInUnit(period: nat)
    requires period > 0
    ensures 0.0 < Smoothing(period) <= 1.0
  {
    var d := period as real + 1.0;
    assert Smoothing(period) * d == 2.0;
  }

  /** One step of the recurrence `ema = v*k + ema*(1-k)`. */
  function EmaStep(prev: real, v: real, k: real): real
  {
    v * k + prev * (1.0 - k)
  }

  /** The recurrence started at `seed` and run over every value of `vs` in order. */
  function EmaFold(seed: real, vs: seq<real>, k: real): real
  {
    if |vs| == 0 then seed else EmaStep(EmaFold(seed, vs[..|vs| - 1], k), vs[|vs| - 1], k)
  }

  /** `ema(values, period)`: seeded with the first value, then run over the rest. */
  function EmaOf(values: seq<real>, period: nat): (r: Option<real>)
    requires |values| < period || |values| > 0
    ensures r.None? <==> |values| < period
  {
    if |values| < period then None
    else Some(EmaFold(values[0], values[1..], Smoothing(period)))
  }

  method Ema(values: seq<real>, period: nat) returns (r: Option<real>)
    requires |values| < period || |values| > 0
    ensures r == EmaOf(values, period)
  {
    if |values| < period {
      return None;
    }
    var k := Smoothing(period);
    var emaPrev := values[0];
    var i := 1;
    while i < |values|
      invariant 1 <= i <= |values|
      invariant emaPrev == EmaFold(values[0], values[1..i], k)
    {
      emaPrev := EmaStep(emaPrev, values[i], k);
      assert values[1..i + 1][..i - 1] == values[1..i];
      i := i + 1;
    }
    assert values[1..i] == values[1..];
    return Some(emaPrev);
  }

  /** One recurrence step with `0 <= k <= 1` is a convex combination, so it keeps a bound. */
  lemma EmaStepWithin(prev: real, v: real, k: real, lo: real, hi: real)
    requires 0.0 <= k <= 1.0 && lo <= prev <= hi && lo <= v <= hi
    ensures lo <= EmaStep(prev, v, k) <= hi
  {
    assert EmaStep(prev, v, k) - lo == (v - lo) * k + (prev - lo) * (1.0 - k);
    assert hi - EmaStep(prev, v, k) == (hi - v) * k + (hi - prev) * (1.0 - k);
    MulNonNegative(v - lo, k);
    MulNonNegative(prev - lo, 1.0 - k);
    MulNonNegative(hi - v, k);
    MulNonNegative(hi - prev, 1.0 - k);
  }

  lemma MulNonNegative(a: real, b: real)
    requires a >= 0.0 && b >= 0.0
    ensures a * b >= 0.0
  {
  }

  lemma {:induction false} EmaFoldWithin(seed: real, vs: seq<real>, k: real, lo: real, hi: real)
    requires 0.0 <= k <= 1.0 && lo <= seed <= hi
    requires forall i :: 0 <= i < |vs| ==> lo <= vs[i] <= hi
    ensures lo <= EmaFold(seed, vs, k) <= hi
  {
    if |vs| > 0 {
      EmaFoldWithin(seed, vs[..|vs| - 1], k, lo, hi);
      EmaStepWithin(EmaFold(seed, vs[..|vs| - 1], k), vs[|vs| - 1], k, lo, hi);
    }
  }

  /** For a positive period the EMA of a series stays within the series' bounds. */
  lemma EmaWithin(values: seq<real>, period: nat, lo: real, hi: real)
    requires period > 0 && |values| >= period
    requires forall i :: 0 <= i < |values| ==> lo <= values[i] <= hi
    ensures EmaOf(values, period).Some?
    ensures lo <= EmaOf(values, period).value <= hi
  {
    SmoothingInUnit(period);
    EmaFoldWithin(values[0], values[1..], Smoothing(period), lo, hi);
  }

  /**
   * Running the recurrence over the seed itself first changes nothing: the
   * loops of `macd_line`, which start at the first value, agree with `ema`,
   * which skips it.
   */
  lemma {:induction false} EmaFoldSeedFirst(seed: real, rest: seq<real>, k: real)
    ensures EmaFold(seed, [seed] + rest, k) == EmaFold(seed, rest, k)
  {
    if |rest| == 0 {
      assert [seed] + rest == [seed];
      assert [seed][..0] == [];
    } else {
      var n := |rest|;
      assert ([seed] + rest)[..n] == [seed] + rest[..n - 1];
      EmaFoldSeedFirst(seed, rest[..n - 1], k);
    }
  }

  /** A constant series is its own EMA. */
  lemma {:induction false} EmaFoldConstant(c: real, vs: seq<real>, k: real)
    requires forall i :: 0 <= i < |vs| ==> vs[i] == c
    ensures EmaFold(c, vs, k) == c
  {
    if |vs| > 0 {
      EmaFoldConstant(c, vs[..|vs| - 1], k);
    }
  }

  // ---------------------------------------------------------------------------
  // macd_line (app.py:219-242)
  // ---------------------------------------------------------------------------

  /** The list of running EMA values the first loop of `macd_line` appends to. */
  function EmaSeries(seed: real, vs: seq<real>, k: real): (r: seq<real>)
    ensures |r| == |vs|
  {
    if |vs| == 0 then [] else EmaSeries(seed, vs[..|vs| - 1], k) + [EmaFold(seed, vs, k)]
  }

  /** Entry `j` of the running list is the recurrence run over the first `j + 1` values. */
  lemma {:induction false} EmaSeriesAt(seed: real, vs: seq<real>, k: real)
    ensures forall j :: 0 <= j < |vs| ==> EmaSeries(seed, vs, k)[j] == EmaFold(seed, vs[..j + 1], k)
  {
    if |vs| > 0 {
      var front := vs[..|vs| - 1];
      EmaSeriesAt(seed, front, k);
      forall j | 0 <= j < |front| ensures EmaSeries(seed, vs, k)[j] == EmaFold(seed, vs[..j + 1], k) {
        assert front[..j + 1] == vs[..j + 1];
      }
      assert vs[..|vs|] == vs;
    }
  }

  /** The MACD series: fast EMA minus slow EMA at every index, both seeded with the first value. */
  function MacdSeries(values: seq<real>, fast: nat, slow: nat): (m: seq<real>)
    requires |values| > 0
  {
    var f := EmaSeries(values[0], values, Smoothing(fast));
    var s := EmaSeries(values[0], values, Smoothing(slow));
    seq(|values|, i requires 0 <= i < |values| => f[i] - s[i])
  }

  /**
   * `macd_line(values, fast, slow, signal)`: the last MACD value and the signal
   * line (the EMA of the MACD series, seeded with its first value), or `None`
   * (Python's `(None, None)`) with fewer than `slow + signal` values.
   */
  function MacdLineOf(values: seq<real>, fast: nat, slow: nat, signal: nat): (r: Option<(real, real)>)
    requires |values| < slow + signal || |values| > 0
    ensures r.None? <==> |values| < slow + signal
  {
    if |values| < slow + signal then None
    else
      var m := MacdSeries(values, fast, slow);
      Some((m[|m| - 1], EmaFold(m[0], m, Smoothing(signal))))
  }

  method MacdLine(values: seq<real>, fast: nat, slow: nat, signal: nat) returns (r: Option<(real, real)>)
    requires |values| < slow + signal || |values| > 0
    ensures r == MacdLineOf(values, fast, slow, signal)
  {
    if |values| < slow + signal {
      return None;
    }
    var emaFast, emaSlow := EmaArrays(values, Smoothing(fast), Smoothing(slow));
    var macd := seq(|values|, j requires 0 <= j < |values| => emaFast[j] - emaSlow[j]);
    assert macd == MacdSeries(values, fast, slow);
    var sig := SignalLine(macd, Smoothing(signal));
    return Some((macd[|macd| - 1], sig));
  }

  /** The last loop of `macd_line`: the signal EMA over the MACD list, seeded with its first value. */
  method SignalLine(macd: seq<real>, k: real) returns (sig: real)
    requires |macd| > 0
    ensures sig == EmaFold(macd[0], macd, k)
  {
    sig := macd[0];
    var j := 0;
    while j < |macd|
      invariant 0 <= j <= |macd|
      invariant sig == EmaFold(macd[0], macd[..j], k)
    {
      sig := EmaStep(sig, macd[j], k);
      assert macd[..j + 1][..j] == macd[..j];
      j := j + 1;
    }
    assert macd[..j] == macd;
  }

  /** The first loop of `macd_line`: the fast and the slow EMA lists, both seeded with the first value. */
  method EmaArrays(values: seq<real>, kFast: real, kSlow: real) returns (emaFast: seq<real>, emaSlow: seq<real>)
    requires |values| > 0
    ensures emaFast == EmaSeries(values[0], values, kFast)
    ensures emaSlow == EmaSeries(values[0], values, kSlow)
  {
    emaFast, emaSlow := [], [];
    var emaF := values[0];
    var emaS := values[0];
    var i := 0;
    while i < |values|
      invariant 0 <= i <= |values|
      invariant emaF == EmaFold(values[0], values[..i], kFast)
      invariant emaS == EmaFold(values[0], values[..i], kSlow)
      invariant emaFast == EmaSeries(values[0], values[..i], kFast)
      invariant emaSlow == EmaSeries(values[0], values[..i], kSlow)
    {
      var v := values[i];
      EmaSeriesSnoc(values[0], values, i, kFast);
      EmaSeriesSnoc(values[0], values, i, kSlow);
      emaF := EmaStep(emaF, v, kFast);
      emaS := EmaStep(emaS, v, kSlow);
      emaFast := emaFast + [emaF];
      emaSlow := emaSlow + [emaS];
      i := i + 1;
    }
    assert values[..i] == values;
  }

  /** One more value extends the running fold by one step and its series by that value. */
  lemma EmaSeriesSnoc(seed: real, vs: seq<real>, i: nat, k: real)
    requires i < |vs|
    ensures EmaFold(seed, vs[..i + 1], k) == EmaStep(EmaFold(seed, vs[..i], k), vs[i], k)
    ensures EmaSeries(seed, vs[..i + 1], k) == EmaSeries(seed, vs[..i], k) + [EmaFold(seed, vs[..i + 1], k)]
  {
    var next := vs[..i + 1];
    assert next[..|next| - 1] == vs[..i];
    assert next[..|next|] == next;
  }

  /**
   * The MACD value `macd_line` returns is the difference of two `ema` results
   * on the same series: its inline loops use the same seeding as `ema`.
   */
  lemma MacdLineIsEmaDifference(values: seq<real>, fast: nat, slow: nat, signal: nat)
    requires fast <= slow && |values| >= slow + signal && |values| > 0
    ensures MacdLineOf(values, fast, slow, signal).Some?
    ensures EmaOf(values, fast).Some? && EmaOf(values, slow).Some?
    ensures MacdLineOf(values, fast, slow, signal).value.0
         == EmaOf(values, fast).value - EmaOf(values, slow).value
  {
    var n := |values|;
    var m := MacdSeries(values, fast, slow);
    EmaSeriesAt(values[0], values, Smoothing(fast));
    EmaSeriesAt(values[0], values, Smoothing(slow));
    assert values[..n] == values;
    assert values == [values[0]] + values[1..];
    EmaFoldSeedFirst(values[0], values[1..], Smoothing(fast));
    EmaFoldSeedFirst(values[0], values[1..], Smoothing(slow));
    assert m[n - 1] == EmaFold(values[0], values, Smoothing(fast)) - EmaFold(values[0], values, Smoothing(slow));
  }

  /** A flat price series has MACD value and signal both zero. */
  lemma MacdOfConstant(values: seq<real>, c: real, fast: nat, slow: nat, signal: nat)
    requires |values| >= slow + signal && |values| > 0
    requires forall i :: 0 <= i < |values| ==> values[i] == c
    ensures MacdLineOf(values, fast, slow, signal) == Some((0.0, 0.0))
  {
    var n := |values|;
    var m := MacdSeries(values, fast, slow);
    EmaSeriesAt(values[0], values, Smoothing(fast));
    EmaSeriesAt(values[0], values, Smoothing(slow));
    forall j | 0 <= j < n
      ensures m[j] == 0.0
    {
      EmaFoldConstant(c, values[..j + 1], Smoothing(fast));
      EmaFoldConstant(c, values[..j + 1], Smoothing(slow));
    }
    EmaFoldConstant(0.0, m, Smoothing(signal));
  }

  // ---------------------------------------------------------------------------
  // rsi (app.py:244-260)
  // ---------------------------------------------------------------------------

  /** The last `period` price changes, newest first: `values[-i] - values[-i-1]` for i = 1..period. */
  function Deltas(values: seq<real>, period: nat): (ds: seq<real>)
    requires |values| >= period + 1
  {
    seq(period, j requires 0 <= j < period => values[|values| - 1 - j] - values[|values| - 2 - j])
  }

  /** The `gains` list: every strictly positive change. */
  function Gains(ds: seq<real>): (r: seq<real>)
    ensures |r| <= |ds|
    ensures forall i :: 0 <= i < |r| ==> r[i] > 0.0
  {
    if |ds| == 0 then []
    else Gains(ds[..|ds| - 1]) + (if ds[|ds| - 1] > 0.0 then [ds[|ds| - 1]] else [])
  }

  /** The `losses` list: the absolute value of every change that is not a gain. */
  function Losses(ds: seq<real>): (r: seq<real>)
    ensures |r| <= |ds|
    ensures forall i :: 0 <= i < |r| ==> r[i] >= 0.0
  {
    if |ds| == 0 then []
    else Losses(ds[..|ds| - 1]) + (if ds[|ds| - 1] > 0.0 then [] else [Abs(ds[|ds| - 1])])
  }

  lemma SumNonNegative(s: seq<real>)
    requires forall i :: 0 <= i < |s| ==> s[i] >= 0.0
    ensures Sum(s) >= 0.0
  {
    SumAtLeast(s, 0.0);
  }

  lemma DivNonNegative(x: real, y: real)
    requires x >= 0.0 && y > 0.0
    ensures x / y >= 0.0
  {
    assert x / y * y == x;
  }

  /** `sum(xs) / period if xs else 0`: the average move over `period` steps. */
  function Average(xs: seq<real>, period: nat): real
    requires |xs| <= period
  {
    if |xs| > 0 then Sum(xs) / period as real else 0.0
  }

  /** An average of non-negative moves is non-negative, and zero exactly when they sum to zero. */
  lemma AverageSign(xs: seq<real>, period: nat)
    requires |xs| <= period
    requires forall i :: 0 <= i < |xs| ==> xs[i] >= 0.0
    ensures Average(xs, period) >= 0.0
    ensures Average(xs, period) == 0.0 <==> Sum(xs) == 0.0
  {
    SumNonNegative(xs);
    if |xs| > 0 {
      DivNonNegative(Sum(xs), period as real);
      assert Average(xs, period) * period as real == Sum(xs);
    } else {
      assert xs == [];
    }
  }

  /** `100 - 100 / (1 + rs)` with a positive average loss lies in [0, 100). */
  lemma RsiFormulaRange(avgGain: real, avgLoss: real)
    requires avgGain >= 0.0 && avgLoss > 0.0
    ensures 1.0 + avgGain / avgLoss >= 1.0
    ensures 0.0 <= 100.0 - 100.0 / (1.0 + avgGain / avgLoss) < 100.0
  {
    DivNonNegative(avgGain, avgLoss);
    var d := 1.0 + avgGain / avgLoss;
    var q := 100.0 / d;
    assert q * d == 100.0;
    assert 0.0 < q <= 100.0;
  }

  /** The tail of `rsi`: the averages over `period`, then `100 - 100/(1 + rs)`, or 100 without losses. */
  function RsiFromLists(gains: seq<real>, losses: seq<real>, period: nat): real
    requires |gains| <= period && |losses| <= period
    requires forall i :: 0 <= i < |gains| ==> gains[i] > 0.0
    requires forall i :: 0 <= i < |losses| ==> losses[i] >= 0.0
  {
    var avgGain := Average(gains, period);
    var avgLoss := Average(losses, period);
    if avgLoss == 0.0 then 100.0
    else
      AverageSign(gains, period);
      AverageSign(losses, period);
      RsiFormulaRange(avgGain, avgLoss);
      100.0 - 100.0 / (1.0 + avgGain / avgLoss)
  }

  /** `rsi(values, period)` over the last `period` changes. */
  function RsiOf(values: seq<real>, period: nat): (r: Option<real>)
    ensures r.None? <==> |values| < period + 1
  {
    if |values| < period + 1 then None
    else
      var ds := Deltas(values, period);
      Some(RsiFromLists(Gains(ds), Losses(ds), period))
  }

  method Rsi(values: seq<real>, period: nat) returns (r: Option<real>)
    ensures r == RsiOf(values, period)
  {
    if |values| < period + 1 {
      return None;
    }
    ghost var ds := Deltas(values, period);
    var gains: seq<real> := [];
    var losses: seq<real> := [];
    var i := 1;
    while i <= period
      invariant 1 <= i <= period + 1
      invariant gains == Gains(ds[..i - 1])
      invariant losses == Losses(ds[..i - 1])
    {
      var delta := values[|values| - i] - values[|values| - i - 1];
      assert delta == ds[i - 1];
      assert ds[..i][..i - 1] == ds[..i - 1];
      if delta > 0.0 {
        gains := gains + [delta];
      } else {
        losses := losses + [Abs(delta)];
      }
      i := i + 1;
    }
    assert ds[..period] == ds;
    return Some(RsiFromLists(gains, losses, period));
  }

  lemma {:induction false} SumConcat(a: seq<real>, b: seq<real>)
    ensures Sum(a + b) == Sum(a) + Sum(b)
  {
    if |b| > 0 {
      assert (a + b)[..|a + b| - 1] == a + b[..|b| - 1];
      SumConcat(a, b[..|b| - 1]);
    } else {
      assert a + b == a;
    }
  }

  /** The losses sum to zero exactly when no change is negative. */
  lemma {:induction false} LossesZeroIff(ds: seq<real>)
    ensures Sum(Losses(ds)) == 0.0 <==> forall j :: 0 <= j < |ds| ==> ds[j] >= 0.0
  {
    if |ds| > 0 {
      var n := |ds|;
      var front := ds[..n - 1];
      LossesZeroIff(front);
      SumNonNegative(Losses(front));
      var tail := if ds[n - 1] > 0.0 then [] else [Abs(ds[n - 1])];
      assert Losses(ds) == Losses(front) + tail;
      SumConcat(Losses(front), tail);
      assert forall j :: 0 <= j < n - 1 ==> front[j] == ds[j];
    }
  }

  /** The RSI formula lies in [0, 100] and reaches 100 exactly when the losses sum to zero. */
  lemma RsiFromListsRange(gains: seq<real>, losses: seq<real>, period: nat)
    requires |gains| <= period && |losses| <= period
    requires forall i :: 0 <= i < |gains| ==> gains[i] > 0.0
    requires forall i :: 0 <= i < |losses| ==> losses[i] >= 0.0
    ensures 0.0 <= RsiFromLists(gains, losses, period) <= 100.0
    ensures RsiFromLists(gains, losses, period) == 100.0 <==> Sum(losses) == 0.0
  {
    AverageSign(gains, period);
    AverageSign(losses, period);
    if Average(losses, period) != 0.0 {
      RsiFormulaRange(Average(gains, period), Average(losses, period));
    }
  }

  /** No price fell over the last `period` steps. */
  predicate NoLoss(values: seq<real>, period: nat)
  {
    forall m :: 0 < m < |values| && |values| - period <= m ==> values[m - 1] <= values[m]
  }

  lemma NoLossIff(values: seq<real>, period: nat)
    requires |values| >= period + 1
    ensures NoLoss(values, period) <==> forall j :: 0 <= j < period ==> Deltas(values, period)[j] >= 0.0
  {
    var n := |values|;
    var ds := Deltas(values, period);
    if NoLoss(values, period) {
      forall j | 0 <= j < period ensures ds[j] >= 0.0 {
        assert values[n - 2 - j] <= values[n - 1 - j];
      }
    }
    if forall j :: 0 <= j < period ==> ds[j] >= 0.0 {
      forall m | 0 < m < n && n - period <= m ensures values[m - 1] <= values[m] {
        assert ds[n - 1 - m] == values[m] - values[m - 1];
      }
    }
  }

  /**
   * RSI is exactly 100 when, and only when, none of the last `period` changes
   * is a loss; otherwise it lies in [0, 100).
   */
  lemma RsiRange(values: seq<real>, period: nat)
    requires |values| >= period + 1
    ensures RsiOf(values, period).Some?
    ensures 0.0 <= RsiOf(values, period).value <= 100.0
    ensures RsiOf(values, period).value == 100.0 <==> NoLoss(values, period)
  {
    var ds := Deltas(values, period);
    RsiFromListsRange(Gains(ds), Losses(ds), period);
    LossesZeroIff(ds);
    NoLossIff(values, period);
  }

  // ---------------------------------------------------------------------------
  // atr (app.py:262-274)
  // ---------------------------------------------------------------------------

  /** `max(high - low, |high - prevClose|, |low - prevClose|)`, never below the candle's own range or zero. */
  function TrueRange(prev: Candle, cur: Candle): (r: real)
    ensures r >= cur.high - cur.low
    ensures r >= 0.0
  {
    Max3(cur.high - cur.low, Abs(cur.high - prev.close), Abs(cur.low - prev.close))
  }

  /** The `trs` list: one true range per candle after the first. */
  function TrueRanges(cs: seq<Candle>): (r: seq<real>)
    ensures |r| == if |cs| == 0 then 0 else |cs| - 1
  {
    if |cs| < 2 then []
    else TrueRanges(cs[..|cs| - 1]) + [TrueRange(cs[|cs| - 2], cs[|cs| - 1])]
  }

  /** The `k`-th true range compares candle `k + 1` with the close of candle `k`. */
  lemma {:induction false} TrueRangesAt(cs: seq<Candle>)
    ensures forall k :: 0 <= k < |TrueRanges(cs)| ==> TrueRanges(cs)[k] == TrueRange(cs[k], cs[k + 1])
  {
    if |cs| >= 2 {
      var front := cs[..|cs| - 1];
      TrueRangesAt(front);
      assert forall k :: 0 <= k < |front| ==> front[k] == cs[k];
    }
  }

  lemma TrueRangesSnoc(cs: seq<Candle>, i: nat)
    requires 1 <= i < |cs|
    ensures TrueRanges(cs[..i + 1]) == TrueRanges(cs[..i]) + [TrueRange(cs[i - 1], cs[i])]
  {
    var next := cs[..i + 1];
    assert next[..|next| - 1] == cs[..i];
  }

  /**
   * `atr(candles, period)`: the mean of the last `period` true ranges.  A zero
   * period divides by zero unless there are no candles at all.
   */
  function AtrOf(candles: seq<Candle>, period: nat): (r: Option<real>)
    requires period > 0 || |candles| == 0
    ensures r.None? <==> |candles| < period + 1
  {
    if |candles| < period + 1 then None
    else
      var trs := TrueRanges(candles);
      Some(Sum(trs[|trs| - period..]) / period as real)
  }

  method Atr(candles: seq<Candle>, period: nat) returns (r: Option<real>)
    requires period > 0 || |candles| == 0
    ensures r == AtrOf(candles, period)
  {
    if |candles| < period + 1 {
      return None;
    }
    var trs: seq<real> := [];
    var i := 1;
    while i < |candles|
      invariant 1 <= i <= |candles|
      invariant trs == TrueRanges(candles[..i])
    {
      var high := candles[i].high;
      var low := candles[i].low;
      var prevClose := candles[i - 1].close;
      var tr := Max3(high - low, Abs(high - prevClose), Abs(low - prevClose));
      assert tr == TrueRange(candles[i - 1], candles[i]);
      TrueRangesSnoc(candles, i);
      trs := trs + [tr];
      i := i + 1;
    }
    assert candles[..i] == candles;
    return Some(Sum(trs[|trs| - period..]) / period as real);
  }

  /**
   * ATR is never negative, and it is at least `d` when every candle of the
   * window spans at least `d` from low to high.
   */
  lemma AtrAtLeast(candles: seq<Candle>, period: nat, d: real)
    requires period > 0 && |candles| >= period + 1
    requires d <= 0.0 || forall i :: |candles| - period <= i < |candles| ==> candles[i].high - candles[i].low >= d
    ensures AtrOf(candles, period).Some?
    ensures AtrOf(candles, period).value >= 0.0
    ensures AtrOf(candles, period).value >= d
  {
    var trs := TrueRanges(candles);
    TrueRangesAt(candles);
    var w := trs[|trs| - period..];
    var lo := if d <= 0.0 then 0.0 else d;
    forall i | 0 <= i < |w| ensures lo <= w[i] {
      var k := |trs| - period + i;
      assert w[i] == trs[k] == TrueRange(candles[k], candles[k + 1]);
      assert k + 1 == |candles| - period + i;
    }
    SumAtLeast(w, lo);
    MeanAtLeast(Sum(w), period as real, lo);
  }

  lemma MeanAtLeast(x: real, n: real, lo: real)
    requires n > 0.0 && n * lo <= x
    ensures lo <= x / n
  {
    assert x / n * n == x;
  }
}
