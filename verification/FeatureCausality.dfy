/** The feature columns on the first bars of a frame are the first rows of the columns on all of it, so
    the classifier's rows do not repaint when its feature vectors are computed from the prices. */
module FeatureCausality {
  import opened Options
  import opened Features
  import N = Neighbours
  import L = Lorentz
  import NoRepainting

  // ---------------------------------------------------------------- averages

  lemma {:induction false} AfterIgnoresFuture(values: seq<Value>, n: nat, count: nat, period: int, alpha: real)
    requires count <= n <= |values| && period >= 1
    ensures After(values[..n], count, period, alpha) == After(values, count, period, alpha)
  {
    if count > 0 {
      AfterIgnoresFuture(values, n, count - 1, period, alpha);
    }
  }

  lemma SmoothedIgnoresFuture(values: seq<Value>, n: nat, period: int, alpha: real)
    requires n <= |values|
    ensures Smoothed(values[..n], period, alpha) == Smoothed(values, period, alpha)[..n]
  {
    if period >= 1 {
      forall i | 0 <= i < n ensures Smoothed(values[..n], period, alpha)[i] == Smoothed(values, period, alpha)[i] {
        AfterIgnoresFuture(values, n, i + 1, period, alpha);
      }
    }
  }

  lemma EmaIgnoresFuture(values: seq<Value>, n: nat, period: int)
    requires n <= |values|
    ensures Ema(values[..n], period) == Ema(values, period)[..n]
  {
    SmoothedIgnoresFuture(values, n, period, EmaAlpha(period));
  }

  lemma RmaIgnoresFuture(values: seq<Value>, n: nat, period: int)
    requires n <= |values|
    ensures Rma(values[..n], period) == Rma(values, period)[..n]
  {
    SmoothedIgnoresFuture(values, n, period, RmaAlpha(period));
  }

  lemma WindowIgnoresFuture(values: seq<Value>, n: nat, i: nat, period: int)
    requires i < n <= |values|
    ensures FullWindow(values[..n], i, period) == FullWindow(values, i, period)
    ensures FullWindow(values, i, period) ==> Window(values[..n], i, period) == Window(values, i, period)
  {
    assert forall j :: 0 <= j <= i ==> values[..n][j] == values[j];
  }

  lemma SmaIgnoresFuture(values: seq<Value>, n: nat, period: int)
    requires n <= |values|
    ensures Sma(values[..n], period) == Sma(values, period)[..n]
  {
    forall i | 0 <= i < n ensures Sma(values[..n], period)[i] == Sma(values, period)[i] {
      WindowIgnoresFuture(values, n, i, period);
    }
  }

  // ---------------------------------------------------------------- running extremes

  lemma {:induction false} ExtremesIgnoreFuture(values: seq<Value>, n: nat, count: nat)
    requires count <= n <= |values|
    ensures Lowest(values[..n], count) == Lowest(values, count)
    ensures Highest(values[..n], count) == Highest(values, count)
  {
    if count > 0 {
      ExtremesIgnoreFuture(values, n, count - 1);
    }
  }

  lemma ExtremeColumnsIgnoreFuture(values: seq<Value>, n: nat)
    requires n <= |values|
    ensures LowestColumn(values[..n]) == LowestColumn(values)[..n]
    ensures HighestColumn(values[..n]) == HighestColumn(values)[..n]
  {
    forall i | 0 <= i < n
      ensures LowestColumn(values[..n])[i] == LowestColumn(values)[i]
      ensures HighestColumn(values[..n])[i] == HighestColumn(values)[i]
    {
      ExtremesIgnoreFuture(values, n, i + 1);
    }
  }

  /** Normalising by the extremes seen so far, not by those of the whole frame. */
  lemma NormalizedIgnoresFuture(values: seq<Value>, n: nat, targetMin: real, targetMax: real)
    requires n <= |values|
    ensures Normalized(values[..n], targetMin, targetMax) == Normalized(values, targetMin, targetMax)[..n]
  {
    ExtremeColumnsIgnoreFuture(values, n);
  }

  // ---------------------------------------------------------------- the four features

  lemma MovesIgnoreFuture(values: seq<Value>, n: nat)
    requires n <= |values|
    ensures Gains(values[..n]) == Gains(values)[..n] && Losses(values[..n]) == Losses(values)[..n]
  {
    assert Diff(values[..n]) == Diff(values)[..n];
  }

  lemma RsiIgnoresFuture(values: seq<Value>, n: nat, period: int)
    requires n <= |values|
    ensures Rsi(values[..n], period) == Rsi(values, period)[..n]
  {
    MovesIgnoreFuture(values, n);
    RmaIgnoresFuture(Gains(values), n, period);
    RmaIgnoresFuture(Losses(values), n, period);
    forall i | 0 <= i < n ensures Rsi(values[..n], period)[i] == Rsi(values, period)[i] {
      assert Rma(Gains(values[..n]), period)[i] == Rma(Gains(values), period)[i];
      assert Rma(Losses(values[..n]), period)[i] == Rma(Losses(values), period)[i];
    }
  }

  lemma NRsiIgnoresFuture(source: seq<Value>, n: nat, n1: int, n2: int)
    requires n <= |source|
    ensures NRsi(source[..n], n1, n2) == NRsi(source, n1, n2)[..n]
  {
    RsiIgnoresFuture(source, n, n1);
    EmaIgnoresFuture(Rsi(source, n1), n, n2);
  }

  lemma CciIgnoresFuture(values: seq<Value>, n: nat, period: int)
    requires n <= |values|
    ensures Cci(values[..n], period) == Cci(values, period)[..n]
  {
    forall i | 0 <= i < n ensures Cci(values[..n], period)[i] == Cci(values, period)[i] {
      WindowIgnoresFuture(values, n, i, period);
    }
  }

  lemma NCciIgnoresFuture(source: seq<Value>, n: nat, n1: int, n2: int)
    requires n <= |source|
    ensures NCci(source[..n], n1, n2) == NCci(source, n1, n2)[..n]
  {
    CciIgnoresFuture(source, n, n1);
    EmaIgnoresFuture(Cci(source, n1), n, n2);
    NormalizedIgnoresFuture(Ema(Cci(source, n1), n2), n, 0.0, 1.0);
  }

  lemma ChannelIgnoresFuture(source: seq<Value>, n: nat, n1: int)
    requires n <= |source|
    ensures Channel(source[..n], n1) == Channel(source, n1)[..n]
  {
    var gap := MinusColumn(source, Ema(source, n1));
    EmaIgnoresFuture(source, n, n1);
    assert MinusColumn(source[..n], Ema(source[..n], n1)) == gap[..n];
    assert AbsColumn(gap[..n]) == AbsColumn(gap)[..n];
    EmaIgnoresFuture(AbsColumn(gap), n, n1);
  }

  lemma NWtIgnoresFuture(source: seq<Value>, n: nat, n1: int, n2: int)
    requires n <= |source|
    ensures NWt(source[..n], n1, n2) == NWt(source, n1, n2)[..n]
  {
    ChannelIgnoresFuture(source, n, n1);
    EmaIgnoresFuture(Channel(source, n1), n, n2);
    var wt1 := Ema(Channel(source, n1), n2);
    SmaIgnoresFuture(wt1, n, 4);
    assert MinusColumn(wt1[..n], Sma(wt1[..n], 4)) == MinusColumn(wt1, Sma(wt1, 4))[..n];
    NormalizedIgnoresFuture(MinusColumn(wt1, Sma(wt1, 4)), n, 0.0, 1.0);
  }

  function FirstBars(bars: Bars, n: nat): Bars
    requires bars.Valid() && n <= |bars.close|
  {
    Bars(bars.high[..n], bars.low[..n], bars.close[..n])
  }

  lemma {:induction false} MovementsIgnoreFuture(bars: Bars, n: nat, count: nat, length: int, zeroFill: bool)
    requires bars.Valid() && count <= n <= |bars.close| && length != 0
    ensures Movements(FirstBars(bars, n), count, length, zeroFill) == Movements(bars, count, length, zeroFill)
  {
    if count > 0 {
      MovementsIgnoreFuture(bars, n, count - 1, length, zeroFill);
    }
  }

  lemma NAdxIgnoresFuture(bars: Bars, n: nat, length: int, zeroFill: bool)
    requires bars.Valid() && n <= |bars.close| && length != 0
    ensures NAdx(FirstBars(bars, n), length, zeroFill) == NAdx(bars, length, zeroFill)[..n]
  {
    var dx := DxColumn(bars, length, zeroFill);
    forall i | 0 <= i < n ensures DxColumn(FirstBars(bars, n), length, zeroFill)[i] == dx[i] {
      MovementsIgnoreFuture(bars, n, i + 1, length, zeroFill);
    }
    assert DxColumn(FirstBars(bars, n), length, zeroFill) == dx[..n];
    RmaIgnoresFuture(dx, n, length);
  }

  // ---------------------------------------------------------------- the feature matrix

  datatype Name = RSI | WT | CCI | ADX | Unsupported

  datatype Definition = Definition(name: Name, a: int, b: int)

  function Third(x: Value, y: Value, z: Value): Value {
    if x.Some? && y.Some? && z.Some? then Some((x.value + y.value + z.value) / 3.0) else None
  }

  function Hlc3(bars: Bars): (r: seq<Value>)
    requires bars.Valid()
    ensures |r| == |bars.close|
  {
    seq(|bars.close|, i requires 0 <= i < |bars.close| => Third(bars.high[i], bars.low[i], bars.close[i]))
  }

  /** `feature_series`: an unknown name raises, and so does the directional index of length zero. */
  function FeatureSeries(bars: Bars, d: Definition): (r: Result<seq<Value>>)
    requires bars.Valid()
    ensures r.Ok? ==> |r.value| == |bars.close|
  {
    match d.name
    case RSI => Ok(NRsi(bars.close, d.a, d.b))
    case WT => Ok(NWt(Hlc3(bars), d.a, d.b))
    case CCI => Ok(NCci(bars.close, d.a, d.b))
    case ADX => if d.a != 0 then Ok(NAdx(bars, d.a, true)) else if bars.close == [] then Ok([]) else Err
    case Unsupported => Err
  }

  /** A column computed on the first n bars is the start of the column on all of them. */
  lemma FeatureSeriesIgnoresFuture(bars: Bars, n: nat, d: Definition)
    requires bars.Valid() && n <= |bars.close|
    ensures FeatureSeries(bars, d).Ok? ==>
              FeatureSeries(FirstBars(bars, n), d) == Ok(FeatureSeries(bars, d).value[..n])
    ensures FeatureSeries(bars, d).Err? && n > 0 ==> FeatureSeries(FirstBars(bars, n), d).Err?
  {
    match d.name
    case RSI => NRsiIgnoresFuture(bars.close, n, d.a, d.b);
    case WT =>
      assert Hlc3(FirstBars(bars, n)) == Hlc3(bars)[..n];
      NWtIgnoresFuture(Hlc3(bars), n, d.a, d.b);
    case CCI => NCciIgnoresFuture(bars.close, n, d.a, d.b);
    case ADX => if d.a != 0 { NAdxIgnoresFuture(bars, n, d.a, true); }
    case Unsupported =>
  }

  /** No column raises. */
  ghost predicate Computable(bars: Bars, definitions: seq<Definition>)
    requires bars.Valid()
  {
    forall k :: 0 <= k < |definitions| ==> FeatureSeries(bars, definitions[k]).Ok?
  }

  /** The feature vector of one bar: one entry of each column. */
  ghost function VectorAt(bars: Bars, definitions: seq<Definition>, i: nat): N.Features
    requires bars.Valid() && Computable(bars, definitions) && i < |bars.close|
  {
    seq(|definitions|, k requires 0 <= k < |definitions| => FeatureSeries(bars, definitions[k]).value[i])
  }

  /** The classifier's bars: what else it reads of each bar, with the feature vectors computed from the prices. */
  ghost function Featured(bars: Bars, definitions: seq<Definition>, rest: seq<N.Bar>): seq<N.Bar>
    requires bars.Valid() && Computable(bars, definitions) && |rest| == |bars.close|
  {
    seq(|rest|, i requires 0 <= i < |rest| => rest[i].(features := VectorAt(bars, definitions, i)))
  }

  lemma VectorsIgnoreFuture(bars: Bars, definitions: seq<Definition>, n: nat, i: nat)
    requires bars.Valid() && Computable(bars, definitions) && i < n <= |bars.close|
    ensures Computable(FirstBars(bars, n), definitions)
    ensures VectorAt(FirstBars(bars, n), definitions, i) == VectorAt(bars, definitions, i)
  {
    forall k | 0 <= k < |definitions|
      ensures FeatureSeries(FirstBars(bars, n), definitions[k]) == Ok(FeatureSeries(bars, definitions[k]).value[..n])
    {
      FeatureSeriesIgnoresFuture(bars, n, definitions[k]);
    }
  }

  lemma ComputableOnStart(bars: Bars, definitions: seq<Definition>, n: nat)
    requires bars.Valid() && Computable(bars, definitions) && n <= |bars.close|
    ensures Computable(FirstBars(bars, n), definitions)
  {
    forall k | 0 <= k < |definitions| ensures FeatureSeries(FirstBars(bars, n), definitions[k]).Ok? {
      FeatureSeriesIgnoresFuture(bars, n, definitions[k]);
    }
  }

  /** The bars built from the first n prices are the first n bars. */
  lemma FeaturedOnStart(bars: Bars, definitions: seq<Definition>, rest: seq<N.Bar>, n: nat)
    requires bars.Valid() && Computable(bars, definitions) && n <= |bars.close| == |rest|
    ensures Computable(FirstBars(bars, n), definitions)
    ensures Featured(FirstBars(bars, n), definitions, rest[..n]) == Featured(bars, definitions, rest)[..n]
  {
    ComputableOnStart(bars, definitions, n);
    forall i | 0 <= i < n
      ensures Featured(FirstBars(bars, n), definitions, rest[..n])[i] == Featured(bars, definitions, rest)[i]
    {
      VectorsIgnoreFuture(bars, definitions, n, i);
    }
  }

  /** Computing the features of the first n bars and classifying them gives the first n rows of the whole frame. */
  lemma PriceRowsNeverRepaint(cfg: L.Settings, bars: Bars, definitions: seq<Definition>, rest: seq<N.Bar>, n: nat)
    requires bars.Valid() && Computable(bars, definitions) && n <= |bars.close| == |rest|
    requires NoRepainting.SafeFrame(cfg.core, Featured(bars, definitions, rest), |rest|)
    ensures Computable(FirstBars(bars, n), definitions)
    ensures L.Rows(cfg, Featured(FirstBars(bars, n), definitions, rest[..n]))
        == L.Rows(cfg, Featured(bars, definitions, rest))[..n]
  {
    FeaturedOnStart(bars, definitions, rest, n);
    NoRepainting.RowsNeverRepaint(cfg, Featured(bars, definitions, rest), n);
  }
}
