/** What the classifier can receive: feature vectors computed from prices. At bar zero no column has a value, save
    the directional index of length one, which has no other value than one. */
module PriceFrames {
  import opened Options
  import opened Features
  import opened FeatureCausality
  import opened N = Neighbours
  import opened L = Lorentz
  import opened NoRepainting

  // ---------------------------------------------------------------- distances

  function Component(scale: real -> real, x: Value, y: Value): Value {
    if x.None? || y.None? then None
    else Some(scale(if x.value < y.value then y.value - x.value else x.value - y.value))
  }

  /** The classifier's distance: the sum of the scaled component distances, missing if any component is. */
  function SumDistance(scale: real -> real, x: N.Features, y: N.Features): Value {
    if x == [] || y == [] then Some(0.0)
    else
      var first, rest := Component(scale, x[0], y[0]), SumDistance(scale, x[1..], y[1..]);
      if first.None? || rest.None? then None else Some(first.value + rest.value)
  }

  /** What the logarithm of one plus the difference is, as far as it matters here. */
  ghost predicate Grows(scale: real -> real) {
    scale(0.0) == 0.0 && forall x, y :: 0.0 <= x < y ==> scale(x) < scale(y)
  }

  ghost predicate Measures(core: Config, scale: real -> real) {
    forall x, y :: core.distance(x, y) == SumDistance(scale, x, y)
  }

  lemma {:induction false} HoleHidesDistance(scale: real -> real, x: N.Features, y: N.Features, k: nat)
    requires k < |x| && k < |y| && y[k].None?
    ensures SumDistance(scale, x, y).None?
  {
    if k > 0 {
      HoleHidesDistance(scale, x[1..], y[1..], k - 1);
    }
  }

  ghost predicate OnesOnly(x: N.Features) {
    forall k :: 0 <= k < |x| ==> x[k] in {None, Some(1.0)}
  }

  lemma {:induction false} OnesAreLevel(scale: real -> real, x: N.Features, y: N.Features)
    requires Grows(scale) && OnesOnly(x) && OnesOnly(y)
    ensures SumDistance(scale, x, y) in {None, Some(0.0)}
  {
    if x != [] && y != [] {
      assert x[0] in {None, Some(1.0)} && y[0] in {None, Some(1.0)};
      OnesAreLevel(scale, x[1..], y[1..]);
    }
  }

  // ---------------------------------------------------------------- bar zero

  lemma SmoothedFromHole(values: seq<Value>, period: int, alpha: real)
    requires values != [] && values[0].None?
    ensures Smoothed(values, period, alpha)[0].None?
  {
    if period >= 1 {
      assert After(values, 0, period, alpha) == Smoother([], None);
    }
  }

  lemma NoRsiAtFirst(source: seq<Value>, n1: int, n2: int)
    requires source != []
    ensures NRsi(source, n1, n2)[0].None?
  {
    SmoothedFromHole(Gains(source), n1, RmaAlpha(n1));
    SmoothedFromHole(Rsi(source, n1), n2, EmaAlpha(n2));
  }

  lemma NoCciAtFirst(source: seq<Value>, n1: int, n2: int)
    requires source != []
    ensures NCci(source, n1, n2)[0].None?
  {
    if FullWindow(source, 0, n1) {
      var xs := Window(source, 0, n1);
      assert xs == [source[0].value];
      MeanOfOne(xs);
      MeanOfOne(Deviations(xs, Mean(xs)));
    }
    SmoothedFromHole(Cci(source, n1), n2, EmaAlpha(n2));
  }

  lemma MeanOfOne(xs: seq<real>)
    requires |xs| == 1
    ensures Mean(xs) == xs[0]
  {
    assert xs[..0] == [] && Features.Sum([]) == 0.0;
  }

  lemma NoWtAtFirst(source: seq<Value>, n1: int, n2: int)
    requires source != []
    ensures NWt(source, n1, n2)[0].None?
  {
    var wt1 := Ema(Channel(source, n1), n2);
    assert Sma(wt1, 4)[0].None?;
  }

  lemma NoAdxAtFirst(bars: Bars, length: int, zeroFill: bool)
    requires bars.Valid() && bars.close != [] && length != 0 && length != 1
    ensures NAdx(bars, length, zeroFill)[0].None?
  {
    var dx := DxColumn(bars, length, zeroFill);
    if length >= 1 {
      WarmUpExactly(dx, 1, length, RmaAlpha(length));
      assert FiniteCount(dx[..1]) <= 1 by { assert dx[..1][..0] == []; }
    }
  }

  /** At bar zero only the directional index of length one can have a value. */
  lemma ColumnsStartBlind(bars: Bars, d: Definition)
    requires bars.Valid() && bars.close != [] && FeatureSeries(bars, d).Ok?
    requires !(d.name.ADX? && d.a == 1)
    ensures FeatureSeries(bars, d).value[0].None?
  {
    match d.name
    case RSI => NoRsiAtFirst(bars.close, d.a, d.b);
    case WT => NoWtAtFirst(Hlc3(bars), d.a, d.b);
    case CCI => NoCciAtFirst(bars.close, d.a, d.b);
    case ADX => NoAdxAtFirst(bars, d.a, true);
    case Unsupported =>
  }

  // ---------------------------------------------------------------- the directional index of length one

  lemma {:induction false} SumsOfOne(bars: Bars, i: nat, length: int, zeroFill: bool)
    requires bars.Valid() && i < |bars.close| && length == 1
    ensures var m := Movements(bars, i + 1, length, zeroFill);
            && m.plus == Winner(Up(bars, i, zeroFill), Down(bars, i, zeroFill))
            && m.minus == Winner(Down(bars, i, zeroFill), Up(bars, i, zeroFill))
  {
    var before := Movements(bars, i, length, zeroFill);
    DecayedAtLengthOne(before.plus, length);
    DecayedAtLengthOne(before.minus, length);
  }

  lemma OneSidedRatio(part: real, range: real)
    requires part > 0.0 && range > 0.0
    ensures var share := Times(Divide(part, range), 100.0);
            share > 0.0 && Divide(share, share) == 1.0
  {
    StrictlyMore(1.0, 0.0, part);
    PositiveRatio(part, range);
  }

  lemma PositiveRatio(x: real, y: real)
    requires x > 0.0 && y > 0.0
    ensures Divide(x, y) > 0.0
  {
  }

  /** A bar moves one way only, so its index is everything or nothing. */
  lemma OneSidedDx(m: Movement)
    requires NotNegative(m.range) && m.plus >= 0.0 && m.minus >= 0.0 && (m.plus == 0.0 || m.minus == 0.0)
    ensures Dx(m) in {None, Some(100.0)}
    ensures Dx(m).Some? <==> m.range.Some? && m.range.value > 0.0 && (m.plus > 0.0 || m.minus > 0.0)
  {
    if m.range.Some? && m.range.value > 0.0 {
      ZeroRatio(m.range.value);
      if m.plus > 0.0 { OneSidedRatio(m.plus, m.range.value); }
      if m.minus > 0.0 { OneSidedRatio(m.minus, m.range.value); }
    }
  }

  lemma DxOfOne(bars: Bars, i: nat, length: int)
    requires bars.Valid() && i < |bars.close| && length == 1
    ensures DxColumn(bars, length, true)[i] in {None, Some(100.0)}
  {
    SumsOfOne(bars, i, length, true);
    MovementsNotNegative(bars, i + 1, length, true);
    OneSidedDx(Movements(bars, i + 1, length, true));
  }

  lemma HundredIsOne()
    ensures Rescale(Some(100.0), 0.0, 100.0, 0.0, 1.0) == Some(1.0)
  {
  }

  /** The directional index of length one, with holes filled with zero, has no other value than one. */
  lemma AdxOfOneIsOne(bars: Bars, length: int)
    requires bars.Valid() && length == 1
    ensures forall i :: 0 <= i < |bars.close| ==> NAdx(bars, length, true)[i] in {None, Some(1.0)}
  {
    var dx := DxColumn(bars, length, true);
    forall i | 0 <= i < |dx| ensures In(dx[i], 100.0, 100.0) {
      DxOfOne(bars, i, length);
    }
    ColumnsInHull(dx, length, 100.0, 100.0);
    HundredIsOne();
    forall i | 0 <= i < |dx| ensures NAdx(bars, length, true)[i] in {None, Some(1.0)} {
      assert In(Rma(dx, length)[i], 100.0, 100.0);
    }
  }

  // ---------------------------------------------------------------- frames of prices

  lemma BlindStart(core: Config, scale: real -> real, bars: Bars, definitions: seq<Definition>, rest: seq<N.Bar>,
      k: nat)
    requires Measures(core, scale) && bars.Valid() && Computable(bars, definitions) && |rest| == |bars.close|
    requires k < |definitions| && !(definitions[k].name.ADX? && definitions[k].a == 1)
    ensures StartsBlind(core, Featured(bars, definitions, rest))
  {
    var all := Featured(bars, definitions, rest);
    if all != [] {
      ColumnsStartBlind(bars, definitions[k]);
      forall i | 0 <= i < |all| ensures Between(core, all, i, 0).None? {
        HoleHidesDistance(scale, all[i].features, all[0].features, k);
      }
    }
  }

  lemma LevelFrame(core: Config, scale: real -> real, bars: Bars, definitions: seq<Definition>, rest: seq<N.Bar>)
    requires Measures(core, scale) && Grows(scale)
    requires bars.Valid() && Computable(bars, definitions) && |rest| == |bars.close|
    requires forall k :: 0 <= k < |definitions| ==> definitions[k].name.ADX? && definitions[k].a == 1
    ensures Level(core, Featured(bars, definitions, rest))
  {
    var all := Featured(bars, definitions, rest);
    AdxOfOneIsOne(bars, 1);
    forall i | 0 <= i < |all| ensures OnesOnly(all[i].features) {
      forall k | 0 <= k < |definitions| ensures all[i].features[k] in {None, Some(1.0)} {
        assert FeatureSeries(bars, definitions[k]) == Ok(NAdx(bars, 1, true));
      }
    }
    forall i, j | 0 <= i < |all| && 0 <= j < |all| ensures Between(core, all, i, j) in {None, Some(0.0)} {
      OnesAreLevel(scale, all[i].features, all[j].features);
    }
  }

  /** On computed features bar zero is out of reach, or no two bars are apart. */
  lemma PricesStart(core: Config, scale: real -> real, bars: Bars, definitions: seq<Definition>, rest: seq<N.Bar>)
    requires Measures(core, scale) && Grows(scale)
    requires bars.Valid() && Computable(bars, definitions) && |rest| == |bars.close|
    ensures var all := Featured(bars, definitions, rest);
            StartsBlind(core, all) || Level(core, all)
  {
    if k: nat :| k < |definitions| && !(definitions[k].name.ADX? && definitions[k].a == 1) {
      BlindStart(core, scale, bars, definitions, rest, k);
    } else {
      LevelFrame(core, scale, bars, definitions, rest);
    }
  }

  /** The frame lengths that never repaint on computed features. */
  predicate SafePriceLength(mode: Mode, maxBarsBack: int, length: nat) {
    SafeLength(mode, maxBarsBack, length) || (FirstAccepted(mode) == 0 && length <= maxBarsBack + 5)
  }

  lemma SafePrices(cfg: Settings, scale: real -> real, bars: Bars, definitions: seq<Definition>, rest: seq<N.Bar>,
      n: nat)
    requires Measures(cfg.core, scale) && Grows(scale)
    requires bars.Valid() && Computable(bars, definitions) && n <= |bars.close| == |rest|
    requires SafePriceLength(cfg.core.mode, cfg.core.maxBarsBack, |rest|)
    ensures Rows(cfg, Featured(bars, definitions, rest)[..n]) == Rows(cfg, Featured(bars, definitions, rest))[..n]
  {
    PricesStart(cfg.core, scale, bars, definitions, rest);
    RowsNeverRepaint(cfg, Featured(bars, definitions, rest), n);
  }
}
