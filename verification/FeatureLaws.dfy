/** The laws that fix the feature columns: what one more value does to each average, and how each feature is made of
    averages, windows and running extremes. */
module FeatureLaws {
  import opened Options
  import opened Reals
  import opened Features
  import opened FeatureCausality

  // ---------------------------------------------------------------- averages

  /** The finite values, in order. */
  function Finite(values: seq<Value>): seq<real> {
    if values == [] then []
    else
      var last := values[|values| - 1];
      Finite(values[..|values| - 1]) + if last.Some? then [last.value] else []
  }

  /** What every average obeys: nothing before `period` finite values have come; then their mean; after that each finite
      value moves the average by a share of its distance, and a missing value leaves it. */
  ghost predicate Averages(values: seq<Value>, output: seq<Value>, period: int, i: nat, part: real, whole: real)
    requires i < |values| == |output|
  {
    var seen := Finite(values[..i + 1]);
    && (|seen| < period ==> output[i].None?)
    && (values[i].None? ==> output[i] == if i == 0 then None else output[i - 1])
    && (values[i].Some? && |seen| == period ==> output[i].Some? && Times(output[i].value, period as real) == Sum(seen))
    && (values[i].Some? && |seen| > period ==>
          && i > 0 && output[i].Some? && output[i - 1].Some?
          && Times(whole, output[i].value - output[i - 1].value) == Times(part, values[i].value - output[i - 1].value))
  }

  lemma FiniteGrows(values: seq<Value>, i: nat)
    requires i < |values|
    ensures Finite(values[..i + 1]) == Finite(values[..i]) + if values[i].Some? then [values[i].value] else []
  {
    assert values[..i + 1][..i] == values[..i];
  }

  /** The smoother has gathered the finite values until there are enough, and has an average from then on. */
  lemma {:induction false} AfterGathers(values: seq<Value>, count: nat, period: int, alpha: real)
    requires count <= |values| && period >= 1
    ensures var s, seen := After(values, count, period, alpha), Finite(values[..count]);
            && (|seen| <= period ==> s.seeds == seen)
            && (s.previous.Some? <==> |seen| >= period)
            && (|seen| == period && count > 0 && values[count - 1].Some? ==> s.previous == Some(Mean(seen)))
  {
    if count > 0 {
      AfterGathers(values, count - 1, period, alpha);
      FiniteGrows(values, count - 1);
    }
  }

  lemma BlendMoves(alpha: real, current: real, previous: real)
    ensures Blend(alpha, current, previous) - previous == Times(alpha, current - previous)
  {
  }

  lemma MeanTimes(xs: seq<real>, count: int)
    requires |xs| == count && count >= 1
    ensures Times(Mean(xs), count as real) == Sum(xs)
  {
    DivideUndoes(Sum(xs), count as real);
  }

  lemma SmoothedAverages(values: seq<Value>, period: int, alpha: real, i: nat, part: real, whole: real)
    requires i < |values| && period >= 1
    requires forall x: real :: Times(whole, Times(alpha, x)) == Times(part, x)
    ensures Averages(values, Smoothed(values, period, alpha), period, i, part, whole)
  {
    var before, after := After(values, i, period, alpha), After(values, i + 1, period, alpha);
    AfterGathers(values, i, period, alpha);
    AfterGathers(values, i + 1, period, alpha);
    FiniteGrows(values, i);
    if values[i].Some? && before.previous.Some? {
      BlendMoves(alpha, values[i].value, before.previous.value);
    }
    if values[i].Some? && |Finite(values[..i + 1])| == period {
      MeanTimes(Finite(values[..i + 1]), period);
    }
  }

  lemma ShareOf(part: real, whole: real, x: real)
    requires whole != 0.0
    ensures Times(whole, Times(Divide(part, whole), x)) == Times(part, x)
  {
    DivideUndoes(part, whole);
    assert whole * ((part / whole) * x) == ((part / whole) * whole) * x;
  }

  /** The exponential average: (period + 1) times its move is twice the value's distance from it. */
  lemma EmaMoves(values: seq<Value>, period: int, i: nat)
    requires i < |values| && period >= 1
    ensures Averages(values, Ema(values, period), period, i, 2.0, period as real + 1.0)
  {
    forall x: real ensures Times(period as real + 1.0, Times(EmaAlpha(period), x)) == Times(2.0, x) {
      ShareOf(2.0, period as real + 1.0, x);
    }
    SmoothedAverages(values, period, EmaAlpha(period), i, 2.0, period as real + 1.0);
  }

  /** The running average of Wilder: period times its move is the value's distance from it. */
  lemma RmaMoves(values: seq<Value>, period: int, i: nat)
    requires i < |values| && period >= 1
    ensures Averages(values, Rma(values, period), period, i, 1.0, period as real)
  {
    forall x: real ensures Times(period as real, Times(RmaAlpha(period), x)) == Times(1.0, x) {
      ShareOf(1.0, period as real, x);
    }
    SmoothedAverages(values, period, RmaAlpha(period), i, 1.0, period as real);
  }

  /** A period that is not positive gives no average at all. */
  lemma NoPeriodNoAverage(values: seq<Value>, period: int, i: nat)
    requires i < |values| && period <= 0
    ensures Ema(values, period)[i].None? && Rma(values, period)[i].None?
  {
  }

  // ---------------------------------------------------------------- relative strength

  /** How far the value rose on each bar, or nothing when it fell; missing where a side of the move is. */
  function Rises(values: seq<Value>): (r: seq<Value>)
    ensures |r| == |values|
  {
    seq(|values|, i requires 0 <= i < |values| =>
      if i == 0 || values[i].None? || values[i - 1].None? then None
      else Some(if values[i].value > values[i - 1].value then values[i].value - values[i - 1].value else 0.0))
  }

  function Falls(values: seq<Value>): (r: seq<Value>)
    ensures |r| == |values|
  {
    seq(|values|, i requires 0 <= i < |values| =>
      if i == 0 || values[i].None? || values[i - 1].None? then None
      else Some(if values[i].value < values[i - 1].value then values[i - 1].value - values[i].value else 0.0))
  }

  lemma MovesAreGainsAndLosses(values: seq<Value>)
    ensures Gains(values) == Rises(values) && Losses(values) == Falls(values)
  {
  }

  /** The index is the share of the averaged rises in all averaged movement, in percent, once something moved. */
  lemma RsiIsShareOfRises(values: seq<Value>, period: int, i: nat)
    requires i < |values|
    ensures var up, down, index := Rma(Rises(values), period)[i], Rma(Falls(values), period)[i], Rsi(values, period)[i];
            && (index.Some? <==> up.Some? && down.Some? && up.value + down.value > 0.0)
            && (index.Some? ==> Times(index.value, up.value + down.value) == Times(100.0, up.value))
  {
    MovesAreGainsAndLosses(values);
    GainsAndLosses(values, period, i);
    StrengthIsShare(Rma(Gains(values), period)[i], Rma(Losses(values), period)[i]);
  }

  lemma HundredthOf(v: Value)
    ensures v.None? <==> Rescale(v, 0.0, 100.0, 0.0, 1.0).None?
    ensures v.Some? ==> Times(100.0, Rescale(v, 0.0, 100.0, 0.0, 1.0).value) == v.value
  {
  }

  /** The RSI feature is a hundredth of the smoothed index: its first length is the index's, its second the
      smoothing's. */
  lemma NRsiIsSmoothedShare(source: seq<Value>, n1: int, n2: int, i: nat)
    requires i < |source|
    ensures var feature, smoothed := NRsi(source, n1, n2)[i], Ema(Rsi(source, n1), n2)[i];
            && (feature.Some? <==> smoothed.Some?)
            && (feature.Some? ==> Times(100.0, feature.value) == smoothed.value)
  {
    HundredthOf(Ema(Rsi(source, n1), n2)[i]);
  }

  // ---------------------------------------------------------------- windows

  /** The last `period` values up to bar i are all there. */
  predicate Complete(values: seq<Value>, i: nat, period: int)
    requires i < |values|
  {
    1 <= period <= i + 1 && |Finite(values[i + 1 - period..i + 1])| == period
  }

  lemma {:induction false} FiniteOfFull(values: seq<Value>)
    ensures |Finite(values)| <= |values|
    ensures |Finite(values)| == |values| <==> forall k :: 0 <= k < |values| ==> values[k].Some?
    ensures |Finite(values)| == |values|
            ==> forall k :: 0 <= k < |values| ==> values[k].Some? && Finite(values)[k] == values[k].value
  {
    if values != [] {
      FiniteOfFull(values[..|values| - 1]);
    }
  }

  lemma WindowIsFinite(values: seq<Value>, i: nat, period: int)
    requires i < |values|
    ensures Complete(values, i, period) <==> FullWindow(values, i, period)
    ensures FullWindow(values, i, period) ==> Window(values, i, period) == Finite(values[i + 1 - period..i + 1])
  {
    if 1 <= period <= i + 1 {
      var part := values[i + 1 - period..i + 1];
      FiniteOfFull(part);
      assert forall k :: 0 <= k < period ==> part[k] == values[i + 1 - period + k];
      if forall k :: 0 <= k < period ==> part[k].Some? {
        forall j | i + 1 - period <= j <= i ensures values[j].Some? {
          assert part[j - (i + 1 - period)].Some?;
        }
      }
    }
  }

  /** The simple average is there when its whole window is, and is its sum over the period. */
  lemma SmaIsMean(values: seq<Value>, period: int, i: nat)
    requires i < |values|
    ensures Sma(values, period)[i].Some? <==> Complete(values, i, period)
    ensures Complete(values, i, period) ==>
              Times(Sma(values, period)[i].value, period as real) == Sum(Finite(values[i + 1 - period..i + 1]))
  {
    WindowIsFinite(values, i, period);
    if FullWindow(values, i, period) {
      MeanTimes(Window(values, i, period), period);
    }
  }

  function TotalDistance(xs: seq<real>, center: real): real {
    if xs == [] then 0.0
    else
      TotalDistance(xs[..|xs| - 1], center)
      + if xs[|xs| - 1] >= center then xs[|xs| - 1] - center else center - xs[|xs| - 1]
  }

  lemma {:induction false} DeviationsAdd(xs: seq<real>, center: real)
    ensures Sum(Deviations(xs, center)) == TotalDistance(xs, center)
  {
    if xs != [] {
      DeviationsAdd(xs[..|xs| - 1], center);
      assert Deviations(xs, center)[..|xs| - 1] == Deviations(xs[..|xs| - 1], center);
    }
  }

  /** The channel index: the distance of the value from the mean of its window, in units of 0.015 mean distances;
      missing where the window is, or where all of it is equal. */
  lemma CciIsDistance(values: seq<Value>, period: int, i: nat) returns (mean: real, spread: real)
    requires i < |values|
    ensures Cci(values, period)[i].Some? <==> Complete(values, i, period) && spread != 0.0
    ensures Complete(values, i, period) ==>
              var xs := Finite(values[i + 1 - period..i + 1]);
              && Times(mean, period as real) == Sum(xs) && Times(spread, period as real) == TotalDistance(xs, mean)
    ensures Cci(values, period)[i].Some? ==>
              Times(Cci(values, period)[i].value, Times(0.015, spread)) == values[i].value - mean
  {
    mean, spread := 0.0, 0.0;
    WindowIsFinite(values, i, period);
    if FullWindow(values, i, period) {
      var xs := Window(values, i, period);
      mean, spread := Mean(xs), Mean(Deviations(xs, Mean(xs)));
      MeanTimes(xs, period);
      MeanTimes(Deviations(xs, mean), period);
      DeviationsAdd(xs, mean);
      if Times(0.015, spread) != 0.0 {
        DivideUndoes(values[i].value - mean, Times(0.015, spread));
      }
    }
  }

  // ---------------------------------------------------------------- running extremes

  /** The least and the greatest finite value so far; far ends where there is none beyond them. */
  ghost predicate AreExtremes(low: real, high: real, values: seq<Value>, i: nat)
    requires i < |values|
  {
    var seen := Finite(values[..i + 1]);
    && (low == 100_000_000_000.0 || low in seen) && (high == -100_000_000_000.0 || high in seen)
    && low <= 100_000_000_000.0 && high >= -100_000_000_000.0
    && forall k :: 0 <= k < |seen| ==> low <= seen[k] <= high
  }

  lemma {:induction false} ExtremesSoFar(values: seq<Value>, i: nat)
    requires i < |values|
    ensures AreExtremes(Lowest(values, i + 1), Highest(values, i + 1), values, i)
  {
    FiniteGrows(values, i);
    if i > 0 {
      ExtremesSoFar(values, i - 1);
    } else {
      assert Finite(values[..0]) == [];
      assert Lowest(values, 0) == 100_000_000_000.0 && Highest(values, 0) == -100_000_000_000.0;
    }
  }

  lemma NormalizedTimes(width: real, part: real, range: real)
    requires range > 0.0
    ensures Times(Divide(Times(width, part), range), range) == Times(width, part)
  {
    DivideUndoes(Times(width, part), range);
  }

  /** Normalising is linear between the running extremes: the share of the target is the share of the range so far,
      which counts as at least 0.000000001. */
  lemma NormalizedIsLinear(values: seq<Value>, targetMin: real, targetMax: real, i: nat)
    returns (low: real, high: real)
    requires i < |values|
    ensures AreExtremes(low, high, values, i)
    ensures Normalized(values, targetMin, targetMax)[i].Some? <==> values[i].Some?
    ensures values[i].Some? ==>
              Times(Normalized(values, targetMin, targetMax)[i].value - targetMin,
                    if high - low >= 0.000000001 then high - low else 0.000000001)
              == Times(targetMax - targetMin, values[i].value - low)
  {
    low, high := Lowest(values, i + 1), Highest(values, i + 1);
    ExtremesSoFar(values, i);
    if values[i].Some? {
      NormalizedTimes(targetMax - targetMin, values[i].value - low, Max(high - low, SMALLEST_RANGE));
    }
  }

  /** A feature that says where a column stands between its extremes so far. */
  ghost predicate StandsBetween(feature: Value, column: seq<Value>, low: real, high: real, i: nat)
    requires i < |column|
  {
    && AreExtremes(low, high, column, i)
    && (feature.Some? <==> column[i].Some?)
    && (column[i].Some? ==>
          Times(feature.value, if high - low >= 0.000000001 then high - low else 0.000000001) == column[i].value - low)
  }

  /** The CCI feature says where the smoothed channel index stands: its first length is the index's. */
  lemma NCciStandsBetween(source: seq<Value>, n1: int, n2: int, i: nat) returns (low: real, high: real)
    requires i < |source|
    ensures StandsBetween(NCci(source, n1, n2)[i], Ema(Cci(source, n1), n2), low, high, i)
  {
    low, high := NormalizedIsLinear(Ema(Cci(source, n1), n2), 0.0, 1.0, i);
  }

  // ---------------------------------------------------------------- wave trend

  /** How far the value is from its average, and how far it is from it in size. */
  function Gaps(source: seq<Value>, n1: int): (r: seq<Value>)
    ensures |r| == |source|
  {
    seq(|source|, i requires 0 <= i < |source| =>
      if source[i].None? || Ema(source, n1)[i].None? then None else Some(source[i].value - Ema(source, n1)[i].value))
  }

  function Sizes(values: seq<Value>): (r: seq<Value>)
    ensures |r| == |values|
  {
    seq(|values|, i requires 0 <= i < |values| =>
      if values[i].None? then None
      else Some(if values[i].value >= 0.0 then values[i].value else -values[i].value))
  }

  lemma GapsAre(source: seq<Value>, n1: int)
    ensures MinusColumn(source, Ema(source, n1)) == Gaps(source, n1)
    ensures AbsColumn(Gaps(source, n1)) == Sizes(Gaps(source, n1))
  {
  }

  /** The channel of the wave trend: the gap to the average, in units of 0.015 average gap sizes, both over n1. */
  lemma ChannelIsGap(source: seq<Value>, n1: int, i: nat)
    requires i < |source|
    ensures var gap, size := Gaps(source, n1)[i], Ema(Sizes(Gaps(source, n1)), n1)[i];
            && (Channel(source, n1)[i].Some? <==> gap.Some? && size.Some? && size.value != 0.0)
            && (Channel(source, n1)[i].Some? ==>
                  Times(Channel(source, n1)[i].value, Times(0.015, size.value)) == gap.value)
  {
    GapsAre(source, n1);
    var gap, size := Gaps(source, n1)[i], Ema(Sizes(Gaps(source, n1)), n1)[i];
    if gap.Some? && size.Some? && Times(0.015, size.value) != 0.0 {
      DivideUndoes(gap.value, Times(0.015, size.value));
    }
  }

  /** What the wave trend normalises: the channel averaged over n2, less its simple average over four bars. */
  function Waves(source: seq<Value>, n1: int, n2: int): (r: seq<Value>)
    ensures |r| == |source|
  {
    var wave := Ema(Channel(source, n1), n2);
    seq(|source|, i requires 0 <= i < |source| =>
      if wave[i].None? || Sma(wave, 4)[i].None? then None else Some(wave[i].value - Sma(wave, 4)[i].value))
  }

  /** The wave-trend feature says where the waves stand. */
  lemma NWtStandsBetween(source: seq<Value>, n1: int, n2: int, i: nat) returns (low: real, high: real)
    requires i < |source|
    ensures StandsBetween(NWt(source, n1, n2)[i], Waves(source, n1, n2), low, high, i)
  {
    var wave := Ema(Channel(source, n1), n2);
    assert MinusColumn(wave, Sma(wave, 4)) == Waves(source, n1, n2);
    low, high := NormalizedIsLinear(Waves(source, n1, n2), 0.0, 1.0, i);
  }

  // ---------------------------------------------------------------- directional movement

  /** The bar before, where it has a value; otherwise zero or the bar itself. */
  function Before(column: seq<Value>, i: nat, zeroFill: bool): Value
    requires i < |column|
  {
    if i > 0 && column[i - 1].Some? then column[i - 1] else if zeroFill then Some(0.0) else column[i]
  }

  /** The size of a difference, where both sides are there. */
  ghost predicate IsDistance(d: real, x: Value, y: Value) {
    x.Some? && y.Some? && (d == x.value - y.value || d == y.value - x.value) && d >= 0.0
  }

  /** One of the three ranges of a bar: from low to high, or from the close before to either. */
  ghost predicate IsRange(d: real, bars: Bars, i: nat, zeroFill: bool)
    requires bars.Valid() && i < |bars.close|
  {
    || (bars.high[i].Some? && bars.low[i].Some? && d == bars.high[i].value - bars.low[i].value)
    || IsDistance(d, bars.high[i], Before(bars.close, i, zeroFill))
    || IsDistance(d, bars.low[i], Before(bars.close, i, zeroFill))
  }

  /** The true range is the greatest of the three ranges that are there. */
  lemma TrueRangeIsGreatest(bars: Bars, i: nat, zeroFill: bool)
    requires bars.Valid() && i < |bars.close|
    ensures TrueRange(bars, i, zeroFill).Some? ==> IsRange(TrueRange(bars, i, zeroFill).value, bars, i, zeroFill)
    ensures forall d :: IsRange(d, bars, i, zeroFill) ==>
                          TrueRange(bars, i, zeroFill).Some? && d <= TrueRange(bars, i, zeroFill).value
  {
    var close := Before(bars.close, i, zeroFill);
    var span := Minus(bars.high[i], bars.low[i]);
    var toHigh, toLow := AbsMinus(bars.high[i], close), AbsMinus(bars.low[i], close);
    GreaterOf(span, toHigh);
    GreaterOf(MaxValue(span, toHigh), toLow);
    forall d: real ensures IsDistance(d, bars.high[i], close) <==> toHigh == Some(d) {
    }
    forall d: real ensures IsDistance(d, bars.low[i], close) <==> toLow == Some(d) {
    }
    assert TrueRange(bars, i, zeroFill) == MaxValue(MaxValue(span, toHigh), toLow);
  }

  lemma GreaterOf(x: Value, y: Value)
    ensures var z := MaxValue(x, y);
            && (z == x || z == y) && (z.None? <==> x.None? && y.None?)
            && (x.Some? ==> x.value <= z.value) && (y.Some? ==> y.value <= z.value)
  {
  }

  /** How far the bar reached up, or down, beyond the bar before; only the side that reached further counts. */
  function ReachUp(bars: Bars, i: nat, zeroFill: bool): (r: real)
    requires bars.Valid() && i < |bars.close|
  {
    var high, low := Before(bars.high, i, zeroFill), Before(bars.low, i, zeroFill);
    if bars.high[i].None? || bars.low[i].None? || high.None? || low.None? then 0.0
    else
      var up, down := bars.high[i].value - high.value, low.value - bars.low[i].value;
      if up > down && up > 0.0 then up else 0.0
  }

  function ReachDown(bars: Bars, i: nat, zeroFill: bool): (r: real)
    requires bars.Valid() && i < |bars.close|
  {
    var high, low := Before(bars.high, i, zeroFill), Before(bars.low, i, zeroFill);
    if bars.high[i].None? || bars.low[i].None? || high.None? || low.None? then 0.0
    else
      var up, down := bars.high[i].value - high.value, low.value - bars.low[i].value;
      if down > up && down > 0.0 then down else 0.0
  }

  /** What the running sums obey: each bar adds its own and takes off one part in `length` of what was there. */
  ghost predicate Accumulates(before: real, after: real, own: real, length: int) {
    Times(length as real, after - own) == Times(length as real - 1.0, before)
  }

  lemma DecayAccumulates(before: real, own: real, length: int)
    requires length != 0
    ensures Accumulates(before, Decayed(before, length) + own, own, length)
  {
    DivideUndoes(before, length as real);
  }

  lemma WinnersReach(bars: Bars, i: nat, zeroFill: bool)
    requires bars.Valid() && i < |bars.close|
    ensures Winner(Up(bars, i, zeroFill), Down(bars, i, zeroFill)) == ReachUp(bars, i, zeroFill)
    ensures Winner(Down(bars, i, zeroFill), Up(bars, i, zeroFill)) == ReachDown(bars, i, zeroFill)
  {
  }

  /** The three running sums start from nothing and accumulate the ranges and the reaches; a missing range stays. */
  lemma MovementsAccumulate(bars: Bars, i: nat, length: int, zeroFill: bool)
    requires bars.Valid() && i < |bars.close| && length != 0
    ensures var before, after := Movements(bars, i, length, zeroFill), Movements(bars, i + 1, length, zeroFill);
            && (i == 0 ==> before == Movement(Some(0.0), 0.0, 0.0))
            && Accumulates(before.plus, after.plus, ReachUp(bars, i, zeroFill), length)
            && Accumulates(before.minus, after.minus, ReachDown(bars, i, zeroFill), length)
            && (after.range.Some? <==> before.range.Some? && TrueRange(bars, i, zeroFill).Some?)
            && (after.range.Some? ==>
                  Accumulates(before.range.value, after.range.value, TrueRange(bars, i, zeroFill).value, length))
  {
    var before := Movements(bars, i, length, zeroFill);
    WinnersReach(bars, i, zeroFill);
    DecayAccumulates(before.plus, ReachUp(bars, i, zeroFill), length);
    DecayAccumulates(before.minus, ReachDown(bars, i, zeroFill), length);
    if before.range.Some? && TrueRange(bars, i, zeroFill).Some? {
      DecayAccumulates(before.range.value, TrueRange(bars, i, zeroFill).value, length);
    }
  }

  lemma RatiosAdd(x: real, y: real, d: real)
    requires d != 0.0
    ensures Divide(x, d) + Divide(y, d) == Divide(x + y, d)
    ensures Divide(x, d) - Divide(y, d) == Divide(x - y, d)
    ensures Divide(x, d) == 0.0 <==> x == 0.0
  {
    DivideUndoes(x, d);
  }

  /** The directional index is the share of the difference of the two sums in both, in percent; the range only says
      whether there is one, and turns its sign when it is negative. */
  lemma DxIsShareOfReaches(m: Movement)
    ensures Dx(m).Some? <==> m.range.Some? && m.range.value != 0.0 && m.plus + m.minus != 0.0
    ensures Dx(m).Some? ==>
              var apart := if m.plus >= m.minus then m.plus - m.minus else m.minus - m.plus;
              Times(Dx(m).value, m.plus + m.minus) == Times(if m.range.value > 0.0 then 100.0 else -100.0, apart)
  {
    if m.range.Some? && m.range.value != 0.0 {
      RatiosAdd(m.plus, m.minus, m.range.value);
      RatiosAdd(m.plus + m.minus, 0.0, m.range.value);
      if m.plus + m.minus != 0.0 {
        ShareOfParts(m.plus, m.minus, m.range.value);
      }
    }
  }

  lemma ShareOfParts(x: real, y: real, d: real)
    requires d != 0.0 && x + y != 0.0
    ensures var a, b := Times(Divide(x, d), 100.0), Times(Divide(y, d), 100.0);
            && a + b != 0.0
            && Times(Times(Divide(Abs(a - b), a + b), 100.0), x + y)
               == Times(if d > 0.0 then 100.0 else -100.0, if x >= y then x - y else y - x)
  {
    var a, b := Times(Divide(x, d), 100.0), Times(Divide(y, d), 100.0);
    DivideUndoes(x, d);
    DivideUndoes(y, d);
    ScaledParts(a, b, x, y, d);
    DivideUndoes(Abs(a - b), a + b);
    ShareUnscaled(Divide(Abs(a - b), a + b), Abs(a - b), a + b, x + y, if x >= y then x - y else y - x, d);
  }

  lemma ScaledParts(a: real, b: real, x: real, y: real, d: real)
    requires d != 0.0 && Times(a, d) == Times(100.0, x) && Times(b, d) == Times(100.0, y) && x + y != 0.0
    ensures a + b != 0.0 && Times(a + b, d) == Times(100.0, x + y)
    ensures Times(Abs(a - b), if d > 0.0 then d else -d) == Times(100.0, if x >= y then x - y else y - x)
  {
    assert (a + b) * d == a * d + b * d && (a - b) * d == a * d - b * d;
    ZeroTimes(a + b, d);
  }

  lemma ZeroTimes(x: real, y: real)
    ensures x == 0.0 ==> Times(x, y) == 0.0
  {
  }

  lemma ShareUnscaled(share: real, apart: real, both: real, whole: real, difference: real, d: real)
    requires d != 0.0 && Times(share, both) == apart && Times(both, d) == Times(100.0, whole)
    requires Times(apart, if d > 0.0 then d else -d) == Times(100.0, difference)
    ensures Times(Times(share, 100.0), whole) == Times(if d > 0.0 then 100.0 else -100.0, difference)
  {
    assert share * (100.0 * whole) == (share * both) * d;
  }

  /** The ADX feature is a hundredth of the directional index, averaged over the same length. */
  lemma NAdxIsAveragedIndex(bars: Bars, length: int, zeroFill: bool, i: nat)
    requires bars.Valid() && i < |bars.close| && length != 0
    ensures var feature, averaged := NAdx(bars, length, zeroFill)[i], Rma(DxColumn(bars, length, zeroFill), length)[i];
            && (feature.Some? <==> averaged.Some?)
            && (feature.Some? ==> Times(100.0, feature.value) == averaged.value)
  {
    HundredthOf(Rma(DxColumn(bars, length, zeroFill), length)[i]);
  }

  // ---------------------------------------------------------------- the columns by name

  /** The mean of high, low and close, where all three are there. */
  ghost predicate AreMeans(means: seq<Value>, bars: Bars)
    requires bars.Valid()
  {
    && |means| == |bars.close|
    && forall i :: 0 <= i < |means| ==>
         && (means[i].Some? <==> bars.high[i].Some? && bars.low[i].Some? && bars.close[i].Some?)
         && (means[i].Some? ==>
               Times(3.0, means[i].value) == bars.high[i].value + bars.low[i].value + bars.close[i].value)
  }

  /** Which feature a name stands for, on which prices, and which of the two lengths goes where; the directional
      index has one length and fills its holes with zero. */
  lemma NamesMean(bars: Bars, a: int, b: int, means: seq<Value>)
    requires bars.Valid() && AreMeans(means, bars)
    ensures FeatureSeries(bars, Definition(RSI, a, b)) == Ok(NRsi(bars.close, a, b))
    ensures FeatureSeries(bars, Definition(CCI, a, b)) == Ok(NCci(bars.close, a, b))
    ensures FeatureSeries(bars, Definition(WT, a, b)) == Ok(NWt(means, a, b))
    ensures a != 0 ==> FeatureSeries(bars, Definition(ADX, a, b)) == Ok(NAdx(bars, a, true))
    ensures FeatureSeries(bars, Definition(ADX, 0, b)).Err? <==> bars.close != []
    ensures FeatureSeries(bars, Definition(Unsupported, a, b)).Err?
  {
    assert Hlc3(bars) == means;
  }
}
