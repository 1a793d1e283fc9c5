/**
 * The classifier features of `src/tradingbot/features_lc.py`, over exact reals.
 *
 * A `Value` is a float that may be missing: `None` stands for NaN and for the infinities, which
 * the smoothing loops treat alike.
 */
module Features {
  import opened Options
  import opened Reals


  type Value = Option<real>

  ghost predicate In(v: Value, lo: real, hi: real) {
    v.Some? ==> lo <= v.value <= hi
  }

  ghost predicate AllIn(values: seq<Value>, lo: real, hi: real) {
    forall i :: 0 <= i < |values| ==> In(values[i], lo, hi)
  }

  // ---------------------------------------------------------------- arithmetic

  function Divide(x: real, y: real): real
    requires y != 0.0
  {
    x / y
  }

  function Times(x: real, y: real): real {
    x * y
  }

  /** A share of a positive whole lies between nothing and one. */
  lemma ShareInUnit(part: real, whole: real)
    requires 0.0 <= part <= whole && whole > 0.0
    ensures 0.0 <= Divide(part, whole) <= 1.0
  {
  }

  lemma DivideUndoes(x: real, y: real)
    requires y != 0.0
    ensures Times(Divide(x, y), y) == x
  {
  }

  lemma TimesIsMonotone(a: real, x: real, y: real)
    requires a >= 0.0 && x <= y
    ensures Times(a, x) <= Times(a, y)
  {
  }

  lemma Distributes(a: real, b: real, x: real)
    ensures Times(a + b, x) == Times(a, x) + Times(b, x)
  {
  }

  function Blend(alpha: real, current: real, previous: real): real {
    Times(alpha, current) + Times(1.0 - alpha, previous)
  }

  /** A blend with a weight between nothing and one stays between its two sides. */
  lemma BlendInHull(alpha: real, current: real, previous: real, lo: real, hi: real)
    requires 0.0 <= alpha <= 1.0 && lo <= current <= hi && lo <= previous <= hi
    ensures lo <= Blend(alpha, current, previous) <= hi
  {
    TimesIsMonotone(alpha, lo, current);
    TimesIsMonotone(alpha, current, hi);
    TimesIsMonotone(1.0 - alpha, lo, previous);
    TimesIsMonotone(1.0 - alpha, previous, hi);
    Distributes(alpha, 1.0 - alpha, lo);
    Distributes(alpha, 1.0 - alpha, hi);
  }

  function Sum(xs: seq<real>): real {
    if xs == [] then 0.0 else Sum(xs[..|xs| - 1]) + xs[|xs| - 1]
  }

  function Mean(xs: seq<real>): real
    requires xs != []
  {
    Divide(Sum(xs), |xs| as real)
  }

  lemma {:induction false} SumInHull(xs: seq<real>, lo: real, hi: real)
    requires forall i :: 0 <= i < |xs| ==> lo <= xs[i] <= hi
    ensures Times(|xs| as real, lo) <= Sum(xs) <= Times(|xs| as real, hi)
  {
    if xs != [] {
      SumInHull(xs[..|xs| - 1], lo, hi);
      Distributes((|xs| - 1) as real, 1.0, lo);
      Distributes((|xs| - 1) as real, 1.0, hi);
    }
  }

  lemma QuotientInHull(sum: real, count: real, lo: real, hi: real)
    requires count > 0.0 && Times(count, lo) <= sum <= Times(count, hi)
    ensures lo <= Divide(sum, count) <= hi
  {
    var q := Divide(sum, count);
    DivideUndoes(sum, count);
    if q < lo {
      StrictlyMore(count, q, lo);
    }
    if q > hi {
      StrictlyMore(count, hi, q);
    }
  }

  lemma StrictlyMore(a: real, x: real, y: real)
    requires a > 0.0 && x < y
    ensures Times(a, x) < Times(a, y)
  {
  }

  lemma MeanInHull(xs: seq<real>, lo: real, hi: real)
    requires xs != [] && forall i :: 0 <= i < |xs| ==> lo <= xs[i] <= hi
    ensures lo <= Mean(xs) <= hi
  {
    SumInHull(xs, lo, hi);
    QuotientInHull(Sum(xs), |xs| as real, lo, hi);
  }

  // ---------------------------------------------------------------- smoothing

  /** The seeds gathered so far, and the running average once there is one. */
  datatype Smoother = Smoother(seeds: seq<real>, previous: Value)

  function Step(s: Smoother, current: Value, period: int, alpha: real): Smoother
    requires period >= 1
  {
    if current.None? then
      s
    else if s.previous.None? then
      var seeds := s.seeds + [current.value];
      Smoother(seeds, if |seeds| == period then Some(Mean(seeds)) else None)
    else
      s.(previous := Some(Blend(alpha, current.value, s.previous.value)))
  }

  function After(values: seq<Value>, count: nat, period: int, alpha: real): Smoother
    requires count <= |values| && period >= 1
  {
    if count == 0 then Smoother([], None)
    else Step(After(values, count - 1, period, alpha), values[count - 1], period, alpha)
  }

  /** What the smoothing loop leaves in its output column. */
  function Smoothed(values: seq<Value>, period: int, alpha: real): (r: seq<Value>)
    ensures |r| == |values|
  {
    seq(|values|, i requires 0 <= i < |values| =>
      if period <= 0 then None else After(values, i + 1, period, alpha).previous)
  }

  function EmaAlpha(period: int): real {
    if period <= 0 then 0.0 else Divide(2.0, period as real + 1.0)
  }

  function RmaAlpha(period: int): real {
    if period <= 0 then 0.0 else Divide(1.0, period as real)
  }

  lemma AlphasInUnit(period: int)
    ensures 0.0 <= EmaAlpha(period) <= 1.0 && 0.0 <= RmaAlpha(period) <= 1.0
  {
    if period >= 1 {
      ShareInUnit(2.0, period as real + 1.0);
      ShareInUnit(1.0, period as real);
    }
  }

  function Ema(values: seq<Value>, period: int): (r: seq<Value>)
    ensures |r| == |values|
  {
    Smoothed(values, period, EmaAlpha(period))
  }

  function Rma(values: seq<Value>, period: int): (r: seq<Value>)
    ensures |r| == |values|
  {
    Smoothed(values, period, RmaAlpha(period))
  }

  /** The loop both averages run: seed with a plain mean, then blend, carrying the average over missing values. */
  method PineSmooth(values: seq<Value>, period: int, alpha: real) returns (output: array<Value>)
    ensures fresh(output) && output[..] == Smoothed(values, period, alpha)
  {
    output := new Value[|values|](i => None);
    if period <= 0 {
      return;
    }
    var seeds: seq<real> := [];
    var previous: Value := None;
    for i := 0 to |values|
      invariant Smoother(seeds, previous) == After(values, i, period, alpha)
      invariant forall j :: 0 <= j < i ==> output[j] == After(values, j + 1, period, alpha).previous
      invariant forall j :: i <= j < |values| ==> output[j] == None
      invariant output.Length == |values|
    {
      var current := values[i];
      if current.None? {
        output[i] := previous;
        continue;
      }
      if previous.None? {
        seeds := seeds + [current.value];
        if |seeds| == period {
          previous := Some(Mean(seeds));
          output[i] := previous;
        }
        continue;
      }
      previous := Some(Blend(alpha, current.value, previous.value));
      output[i] := previous;
    }
  }

  method PineEma(values: seq<Value>, period: int) returns (output: array<Value>)
    ensures fresh(output) && output[..] == Ema(values, period)
  {
    output := PineSmooth(values, period, EmaAlpha(period));
  }

  method PineRma(values: seq<Value>, period: int) returns (output: array<Value>)
    ensures fresh(output) && output[..] == Rma(values, period)
  {
    output := PineSmooth(values, period, RmaAlpha(period));
  }

  ghost predicate SeedsIn(s: Smoother, lo: real, hi: real) {
    (forall i :: 0 <= i < |s.seeds| ==> lo <= s.seeds[i] <= hi) && In(s.previous, lo, hi)
  }

  lemma {:induction false} AfterInHull(values: seq<Value>, count: nat, period: int, alpha: real, lo: real, hi: real)
    requires count <= |values| && period >= 1 && 0.0 <= alpha <= 1.0
    requires AllIn(values[..count], lo, hi)
    ensures SeedsIn(After(values, count, period, alpha), lo, hi)
  {
    if count > 0 {
      var before := After(values, count - 1, period, alpha);
      assert values[..count][..count - 1] == values[..count - 1];
      AfterInHull(values, count - 1, period, alpha, lo, hi);
      var current := values[count - 1];
      assert current == values[..count][count - 1];
      if current.Some? {
        if before.previous.None? {
          MeanInHull(before.seeds + [current.value], lo, hi);
        } else {
          BlendInHull(alpha, current.value, before.previous.value, lo, hi);
        }
      }
    }
  }

  /** Averages stay in the hull of the finite values seen so far, missing values and carry-forward included. */
  lemma AveragesInHull(values: seq<Value>, period: int, i: nat, lo: real, hi: real)
    requires i < |values| && AllIn(values[..i + 1], lo, hi)
    ensures In(Ema(values, period)[i], lo, hi) && In(Rma(values, period)[i], lo, hi)
  {
    AlphasInUnit(period);
    if period >= 1 {
      AfterInHull(values, i + 1, period, EmaAlpha(period), lo, hi);
      AfterInHull(values, i + 1, period, RmaAlpha(period), lo, hi);
    }
  }

  lemma ColumnsInHull(values: seq<Value>, period: int, lo: real, hi: real)
    requires AllIn(values, lo, hi)
    ensures AllIn(Ema(values, period), lo, hi) && AllIn(Rma(values, period), lo, hi)
  {
    forall i | 0 <= i < |values|
      ensures In(Ema(values, period)[i], lo, hi) && In(Rma(values, period)[i], lo, hi)
    {
      AveragesInHull(values, period, i, lo, hi);
    }
  }

  function FiniteCount(values: seq<Value>): nat {
    if values == [] then 0
    else FiniteCount(values[..|values| - 1]) + (if values[|values| - 1].Some? then 1 else 0)
  }

  /** The seeds never outgrow the period; the average exists exactly once `period` finite values have come. */
  lemma {:induction false} WarmUpExactly(values: seq<Value>, count: nat, period: int, alpha: real)
    requires count <= |values| && period >= 1
    ensures var s := After(values, count, period, alpha);
            s.previous.Some? <==> FiniteCount(values[..count]) >= period
    ensures var s := After(values, count, period, alpha);
            |s.seeds| == if FiniteCount(values[..count]) < period then FiniteCount(values[..count]) else period
  {
    if count > 0 {
      assert values[..count][..count - 1] == values[..count - 1];
      WarmUpExactly(values, count - 1, period, alpha);
    }
  }

  // ---------------------------------------------------------------- rescaling

  const SMALLEST_RANGE: real := 0.000000001
  const EXTREME: real := 100000000000.0

  function Rescale(v: Value, oldMin: real, oldMax: real, newMin: real, newMax: real): Value {
    if v.None? then None
    else Some(newMin + Divide(Times(newMax - newMin, v.value - oldMin), Max(oldMax - oldMin, SMALLEST_RANGE)))
  }

  /** Rescaling a percentage to the unit range. */
  lemma PercentToUnit(v: Value)
    requires In(v, 0.0, 100.0)
    ensures In(Rescale(v, 0.0, 100.0, 0.0, 1.0), 0.0, 1.0)
  {
  }

  /** The least and the greatest finite value so far, starting from the two far ends. */
  function Lowest(values: seq<Value>, count: nat): real
    requires count <= |values|
  {
    if count == 0 then EXTREME
    else if values[count - 1].None? then Lowest(values, count - 1)
    else Min(values[count - 1].value, Lowest(values, count - 1))
  }

  function Highest(values: seq<Value>, count: nat): real
    requires count <= |values|
  {
    if count == 0 then -EXTREME
    else if values[count - 1].None? then Highest(values, count - 1)
    else Max(values[count - 1].value, Highest(values, count - 1))
  }

  function NormalizedAt(v: Value, lowest: real, highest: real, targetMin: real, targetMax: real): Value {
    if v.None? then None
    else Some(targetMin + Divide(Times(targetMax - targetMin, v.value - lowest), Max(highest - lowest, SMALLEST_RANGE)))
  }

  function LowestColumn(values: seq<Value>): (r: seq<real>)
    ensures |r| == |values|
  {
    seq(|values|, i requires 0 <= i < |values| => Lowest(values, i + 1))
  }

  function HighestColumn(values: seq<Value>): (r: seq<real>)
    ensures |r| == |values|
  {
    seq(|values|, i requires 0 <= i < |values| => Highest(values, i + 1))
  }

  function NormalizeColumn(values: seq<Value>, lowest: seq<real>, highest: seq<real>, targetMin: real,
      targetMax: real): (r: seq<Value>)
    requires |lowest| == |values| && |highest| == |values|
    ensures |r| == |values|
  {
    seq(|values|, i requires 0 <= i < |values| => NormalizedAt(values[i], lowest[i], highest[i], targetMin, targetMax))
  }

  function Normalized(values: seq<Value>, targetMin: real, targetMax: real): (r: seq<Value>)
    ensures |r| == |values|
  {
    NormalizeColumn(values, LowestColumn(values), HighestColumn(values), targetMin, targetMax)
  }

  method Normalize(values: seq<Value>, targetMin: real, targetMax: real) returns (output: seq<Value>)
    ensures output == Normalized(values, targetMin, targetMax)
  {
    var historicMin: seq<real>, historicMax: seq<real> := [], [];
    var lowest, highest := EXTREME, -EXTREME;
    for i := 0 to |values|
      invariant lowest == Lowest(values, i) && highest == Highest(values, i)
      invariant historicMin == LowestColumn(values)[..i] && historicMax == HighestColumn(values)[..i]
    {
      if values[i].Some? {
        lowest := Min(values[i].value, lowest);
        highest := Max(values[i].value, highest);
      }
      historicMin := historicMin + [lowest];
      historicMax := historicMax + [highest];
    }
    output := NormalizeColumn(values, historicMin, historicMax, targetMin, targetMax);
  }

  /** The running extremes bound every finite value so far. */
  lemma {:induction false} ExtremesBound(values: seq<Value>, count: nat, i: nat)
    requires i < count <= |values| && values[i].Some?
    ensures Lowest(values, count) <= values[i].value <= Highest(values, count)
  {
    if i < count - 1 {
      ExtremesBound(values, count - 1, i);
    }
  }

  lemma ScaledShare(width: real, part: real, whole: real)
    requires width >= 0.0 && 0.0 <= part <= whole && whole > 0.0
    ensures 0.0 <= Divide(Times(width, part), whole) <= width
  {
    TimesIsMonotone(width, 0.0, part);
    TimesIsMonotone(width, part, whole);
    assert Times(width, whole) == Times(whole, width);
    assert Times(whole, 0.0) == 0.0;
    QuotientInHull(Times(width, part), whole, 0.0, width);
  }

  /** Normalised values stay in the target range. */
  lemma NormalizedInTarget(values: seq<Value>, targetMin: real, targetMax: real)
    requires targetMin <= targetMax
    ensures AllIn(Normalized(values, targetMin, targetMax), targetMin, targetMax)
  {
    forall i | 0 <= i < |values| ensures In(Normalized(values, targetMin, targetMax)[i], targetMin, targetMax) {
      if values[i].Some? {
        ExtremesBound(values, i + 1, i);
        var lowest, highest := Lowest(values, i + 1), Highest(values, i + 1);
        ScaledShare(targetMax - targetMin, values[i].value - lowest, Max(highest - lowest, SMALLEST_RANGE));
      }
    }
  }

  /** The running extremes are finite values seen so far, once one within the far ends has come. */
  lemma {:induction false} ExtremesAttained(values: seq<Value>, count: nat) returns (low: nat, high: nat)
    requires count <= |values| && AllIn(values[..count], -EXTREME, EXTREME)
    requires exists i :: 0 <= i < count && values[i].Some?
    ensures low < count && values[low] == Some(Lowest(values, count))
    ensures high < count && values[high] == Some(Highest(values, count))
  {
    var last := values[count - 1];
    assert last == values[..count][count - 1];
    assert AllIn(values[..count - 1], -EXTREME, EXTREME) by {
      assert values[..count - 1] == values[..count][..count - 1];
    }
    if exists i :: 0 <= i < count - 1 && values[i].Some? {
      low, high := ExtremesAttained(values, count - 1);
      if last.Some? && last.value == Lowest(values, count) { low := count - 1; }
      if last.Some? && last.value == Highest(values, count) { high := count - 1; }
    } else {
      NothingYet(values, count - 1);
      low, high := count - 1, count - 1;
    }
  }

  lemma {:induction false} NothingYet(values: seq<Value>, count: nat)
    requires count <= |values| && forall i :: 0 <= i < count ==> values[i].None?
    ensures Lowest(values, count) == EXTREME && Highest(values, count) == -EXTREME
  {
    if count > 0 {
      NothingYet(values, count - 1);
    }
  }

  /** A new low maps to the bottom of the target and, over a range wide enough, a new high to its top. */
  lemma ExtremesMapToEnds(values: seq<Value>, targetMin: real, targetMax: real, i: nat)
    requires i < |values| && values[i].Some?
    ensures values[i].value == Lowest(values, i + 1) ==> Normalized(values, targetMin, targetMax)[i] == Some(targetMin)
    ensures values[i].value == Highest(values, i + 1)
            && Highest(values, i + 1) - Lowest(values, i + 1) >= SMALLEST_RANGE
            ==> Normalized(values, targetMin, targetMax)[i] == Some(targetMax)
  {
    var lowest, highest := Lowest(values, i + 1), Highest(values, i + 1);
    var width, range := targetMax - targetMin, Max(highest - lowest, SMALLEST_RANGE);
    assert Times(width, 0.0) == 0.0;
    ZeroRatio(range);
    WholeRatio(width, range);
  }

  lemma WholeRatio(x: real, y: real)
    requires y != 0.0
    ensures Divide(Times(x, y), y) == x
  {
  }

  lemma ZeroRatio(y: real)
    requires y != 0.0
    ensures Divide(0.0, y) == 0.0
  {
  }

  // ---------------------------------------------------------------- relative strength

  function Minus(x: Value, y: Value): Value {
    if x.Some? && y.Some? then Some(x.value - y.value) else None
  }

  function Diff(values: seq<Value>): (r: seq<Value>)
    ensures |r| == |values|
  {
    seq(|values|, i requires 0 <= i < |values| => if i == 0 then None else Minus(values[i], values[i - 1]))
  }

  function Gains(values: seq<Value>): (r: seq<Value>)
    ensures |r| == |values|
  {
    var delta := Diff(values);
    seq(|values|, i requires 0 <= i < |values| =>
      if delta[i].None? then None else Some(Max(delta[i].value, 0.0)))
  }

  function Losses(values: seq<Value>): (r: seq<Value>)
    ensures |r| == |values|
  {
    var delta := Diff(values);
    seq(|values|, i requires 0 <= i < |values| =>
      if delta[i].None? then None else Some(-Min(delta[i].value, 0.0)))
  }

  ghost predicate NotNegative(v: Value) {
    v.Some? ==> v.value >= 0.0
  }

  /** The strength of one bar from its average gain and loss, masks included. */
  function Strength(gain: Value, loss: Value): Value
    requires NotNegative(gain) && NotNegative(loss)
  {
    if gain.None? || loss.None? then None
    else if loss.value == 0.0 then
      if gain.value > 0.0 then Some(100.0) else None
    else if gain.value == 0.0 then Some(0.0)
    else
      assert Divide(gain.value, loss.value) >= 0.0 by { RatioNotNegative(gain.value, loss.value); }
      Some(100.0 - Divide(100.0, 1.0 + Divide(gain.value, loss.value)))
  }

  lemma RatioNotNegative(x: real, y: real)
    requires x >= 0.0 && y > 0.0
    ensures Divide(x, y) >= 0.0
  {
  }

  /** Whatever branch gives it, the strength is the gain's share of gain plus loss, in percent. */
  lemma StrengthIsShare(gain: Value, loss: Value)
    requires NotNegative(gain) && NotNegative(loss)
    ensures Strength(gain, loss).Some? <==> gain.Some? && loss.Some? && gain.value + loss.value > 0.0
    ensures Strength(gain, loss).Some?
            ==> Times(Strength(gain, loss).value, gain.value + loss.value) == Times(100.0, gain.value)
    ensures In(Strength(gain, loss), 0.0, 100.0)
  {
    if Strength(gain, loss).Some? && gain.value > 0.0 && loss.value > 0.0 {
      InnerShare(gain.value, loss.value);
    }
  }

  lemma InnerShare(gain: real, loss: real)
    requires gain > 0.0 && loss > 0.0
    ensures 1.0 + Divide(gain, loss) > 0.0
    ensures var s := 100.0 - Divide(100.0, 1.0 + Divide(gain, loss));
            Times(s, gain + loss) == Times(100.0, gain) && 0.0 <= s <= 100.0
  {
    var ratio := Divide(gain, loss);
    RatioNotNegative(gain, loss);
    var inverse := Divide(100.0, 1.0 + ratio);
    RatioNotNegative(100.0, 1.0 + ratio);
    DivideUndoes(gain, loss);
    DivideUndoes(100.0, 1.0 + ratio);
    InverseOfOneMore(inverse, ratio, gain, loss);
    OneMoreIsLess(inverse, ratio);
  }

  lemma InverseOfOneMore(inverse: real, ratio: real, gain: real, loss: real)
    requires Times(ratio, loss) == gain && Times(inverse, 1.0 + ratio) == 100.0
    ensures Times(100.0 - inverse, gain + loss) == Times(100.0, gain)
  {
    assert gain + loss == (1.0 + ratio) * loss;
    assert inverse * (gain + loss) == (inverse * (1.0 + ratio)) * loss;
  }

  lemma OneMoreIsLess(inverse: real, ratio: real)
    requires inverse >= 0.0 && ratio >= 0.0 && Times(inverse, 1.0 + ratio) == 100.0
    ensures inverse <= 100.0
  {
    TimesIsMonotone(inverse, 1.0, 1.0 + ratio);
    assert Times(inverse, 1.0) == inverse;
  }

  lemma GainsAndLosses(values: seq<Value>, period: int, i: nat)
    requires i < |values|
    ensures NotNegative(Rma(Gains(values), period)[i]) && NotNegative(Rma(Losses(values), period)[i])
  {
    var gain, loss := Rma(Gains(values), period)[i], Rma(Losses(values), period)[i];
    AtLeastZero(Gains(values), period, i);
    AtLeastZero(Losses(values), period, i);
  }

  /** A bound above the values up to a bar. */
  function Ceiling(values: seq<Value>, count: nat): real
    requires count <= |values|
  {
    if count == 0 then 0.0
    else if values[count - 1].None? then Ceiling(values, count - 1)
    else Max(values[count - 1].value, Ceiling(values, count - 1))
  }

  lemma {:induction false} CeilingBounds(values: seq<Value>, count: nat)
    requires count <= |values|
    ensures Ceiling(values, count) >= 0.0
    ensures forall i :: 0 <= i < count && values[i].Some? ==> values[i].value <= Ceiling(values, count)
  {
    if count > 0 {
      CeilingBounds(values, count - 1);
    }
  }

  lemma AtLeastZero(values: seq<Value>, period: int, i: nat)
    requires i < |values| && forall j :: 0 <= j < |values| ==> NotNegative(values[j])
    ensures NotNegative(Rma(values, period)[i])
  {
    CeilingBounds(values, i + 1);
    AveragesInHull(values, period, i, 0.0, Ceiling(values, i + 1));
  }

  function Rsi(values: seq<Value>, period: int): (r: seq<Value>)
    ensures |r| == |values|
  {
    var gain, loss := Rma(Gains(values), period), Rma(Losses(values), period);
    seq(|values|, i requires 0 <= i < |values| =>
      GainsAndLosses(values, period, i);
      Strength(gain[i], loss[i]))
  }

  lemma RsiInPercent(values: seq<Value>, period: int)
    ensures AllIn(Rsi(values, period), 0.0, 100.0)
  {
    forall i | 0 <= i < |values| ensures In(Rsi(values, period)[i], 0.0, 100.0) {
      GainsAndLosses(values, period, i);
      StrengthIsShare(Rma(Gains(values), period)[i], Rma(Losses(values), period)[i]);
    }
  }

  function RescaleColumn(values: seq<Value>, oldMin: real, oldMax: real, newMin: real, newMax: real): (r: seq<Value>)
    ensures |r| == |values|
  {
    seq(|values|, i requires 0 <= i < |values| => Rescale(values[i], oldMin, oldMax, newMin, newMax))
  }

  function NRsi(source: seq<Value>, n1: int, n2: int): seq<Value> {
    RescaleColumn(Ema(Rsi(source, n1), n2), 0.0, 100.0, 0.0, 1.0)
  }

  lemma PercentColumn(values: seq<Value>)
    requires AllIn(values, 0.0, 100.0)
    ensures AllIn(RescaleColumn(values, 0.0, 100.0, 0.0, 1.0), 0.0, 1.0)
  {
    forall i | 0 <= i < |values| ensures In(RescaleColumn(values, 0.0, 100.0, 0.0, 1.0)[i], 0.0, 1.0) {
      PercentToUnit(values[i]);
    }
  }

  /** Every finite RSI feature lies in the unit range. */
  lemma NRsiInUnit(source: seq<Value>, n1: int, n2: int)
    ensures AllIn(NRsi(source, n1, n2), 0.0, 1.0)
  {
    RsiInPercent(source, n1);
    ColumnsInHull(Rsi(source, n1), n2, 0.0, 100.0);
    PercentColumn(Ema(Rsi(source, n1), n2));
  }

  // ---------------------------------------------------------------- commodity channel

  /** The finite values of the last `period` bars up to bar `i`, when all of them are finite. */
  predicate FullWindow(values: seq<Value>, i: nat, period: int) {
    1 <= period <= i + 1 <= |values| && forall j :: i + 1 - period <= j <= i ==> values[j].Some?
  }

  function Window(values: seq<Value>, i: nat, period: int): (r: seq<real>)
    requires FullWindow(values, i, period)
    ensures |r| == period && r[period - 1] == values[i].value
  {
    seq(period, j requires 0 <= j < period => values[i + 1 - period + j].value)
  }

  /** `rolling(period, min_periods=period).mean()`. */
  function Sma(values: seq<Value>, period: int): (r: seq<Value>)
    ensures |r| == |values|
  {
    seq(|values|, i requires 0 <= i < |values| =>
      if FullWindow(values, i, period) then Some(Mean(Window(values, i, period))) else None)
  }

  function Deviations(xs: seq<real>, center: real): (r: seq<real>)
    ensures |r| == |xs|
  {
    seq(|xs|, i requires 0 <= i < |xs| => Abs(xs[i] - center))
  }

  function DeviationAt(values: seq<Value>, i: nat, period: int): Value {
    if FullWindow(values, i, period) then
      var window := Window(values, i, period);
      Some(Mean(Deviations(window, Mean(window))))
    else None
  }

  method MeanDeviation(values: seq<Value>, period: int) returns (mad: array<Value>)
    requires period >= 1
    ensures fresh(mad) && mad.Length == |values|
    ensures forall i :: 0 <= i < |values| ==> mad[i] == DeviationAt(values, i, period)
  {
    mad := new Value[|values|](i => None);
    var mean := Sma(values, period);
    if period - 1 < |values| {
      for i := period - 1 to |values|
        invariant forall j :: 0 <= j < i ==> mad[j] == DeviationAt(values, j, period)
        invariant forall j :: i <= j < |values| ==> mad[j] == None
      {
        if mean[i].None? {
          continue;
        }
        mad[i] := Some(Mean(Deviations(Window(values, i, period), mean[i].value)));
      }
    }
  }

  function CciAt(values: seq<Value>, i: nat, period: int): Value {
    var mad := DeviationAt(values, i, period);
    if mad.None? || Times(0.015, mad.value) == 0.0 then None
    else Some(Divide(values[i].value - Mean(Window(values, i, period)), Times(0.015, mad.value)))
  }

  function Cci(values: seq<Value>, period: int): (r: seq<Value>)
    ensures |r| == |values|
  {
    seq(|values|, i requires 0 <= i < |values| => CciAt(values, i, period))
  }

  lemma {:induction false} DeviationsOutweigh(xs: seq<real>, center: real)
    ensures Sum(Deviations(xs, center)) >= Abs(Sum(xs) - Times(|xs| as real, center))
  {
    if xs != [] {
      var front := xs[..|xs| - 1];
      DeviationsOutweigh(front, center);
      assert Deviations(xs, center)[..|xs| - 1] == Deviations(front, center);
      Distributes((|xs| - 1) as real, 1.0, center);
    } else {
      assert Times(0.0, center) == 0.0;
    }
  }

  /** The last deviation is at most half of all of them: the others must balance it. */
  lemma LastIsAtMostHalf(xs: seq<real>)
    requires xs != []
    ensures 2.0 * Abs(xs[|xs| - 1] - Mean(xs)) <= Sum(Deviations(xs, Mean(xs)))
  {
    var front, center := xs[..|xs| - 1], Mean(xs);
    DeviationsOutweigh(front, center);
    assert Deviations(xs, center)[..|xs| - 1] == Deviations(front, center);
    DivideUndoes(Sum(xs), |xs| as real);
    assert Times(center, |xs| as real) == Times(|xs| as real, center);
    Distributes((|xs| - 1) as real, 1.0, center);
    assert Times(1.0, center) == center;
  }

  /** The channel index is bounded by its period, whatever the prices do: at most `period / 0.03` either way. */
  lemma CciIsBounded(values: seq<Value>, period: int, i: nat)
    requires i < |values| && Cci(values, period)[i].Some?
    ensures Times(0.03, Abs(Cci(values, period)[i].value)) <= period as real
  {
    var window := Window(values, i, period);
    var distance := values[i].value - Mean(window);
    var total := Sum(Deviations(window, Mean(window)));
    LastIsAtMostHalf(window);
    RatioBound(distance, total, period as real);
  }

  lemma RatioBound(distance: real, total: real, count: real)
    requires count >= 1.0 && 2.0 * Abs(distance) <= total
    requires Times(0.015, Divide(total, count)) != 0.0
    ensures Times(0.03, Abs(Divide(distance, Times(0.015, Divide(total, count))))) <= count
  {
    var mad := Divide(total, count);
    DivideUndoes(total, count);
    RatioNotNegative(total, count);
    var index := Divide(distance, Times(0.015, mad));
    DivideUndoes(distance, Times(0.015, mad));
    assert Times(index, 0.015 * mad) == distance;
    AbsOfProduct(index, mad, distance);
    ScaledAbove(Abs(index), mad, count);
  }

  lemma AbsOfProduct(index: real, mad: real, distance: real)
    requires mad > 0.0 && Times(index, 0.015 * mad) == distance
    ensures Times(Abs(index), mad) * 0.015 == Abs(distance)
  {
    assert index * (0.015 * mad) == (index * mad) * 0.015;
    if index >= 0.0 {
      TimesIsMonotone(mad, 0.0, index);
    } else {
      TimesIsMonotone(mad, index, 0.0);
    }
  }

  lemma ScaledAbove(size: real, mad: real, count: real)
    requires mad > 0.0 && 0.03 * Times(size, mad) <= Times(mad, count)
    ensures Times(0.03, size) <= count
  {
    assert Times(mad, Times(0.03, size)) == 0.03 * Times(size, mad);
    if Times(0.03, size) > count {
      StrictlyMore(mad, count, Times(0.03, size));
    }
  }

  function NCci(source: seq<Value>, n1: int, n2: int): seq<Value> {
    Normalized(Ema(Cci(source, n1), n2), 0.0, 1.0)
  }

  /** Every finite CCI feature lies in the unit range. */
  lemma NCciInUnit(source: seq<Value>, n1: int, n2: int)
    ensures AllIn(NCci(source, n1, n2), 0.0, 1.0)
  {
    NormalizedInTarget(Ema(Cci(source, n1), n2), 0.0, 1.0);
  }

  // ---------------------------------------------------------------- wave trend

  function MinusColumn(xs: seq<Value>, ys: seq<Value>): (r: seq<Value>)
    requires |xs| == |ys|
    ensures |r| == |xs|
  {
    seq(|xs|, i requires 0 <= i < |xs| => Minus(xs[i], ys[i]))
  }

  function AbsColumn(xs: seq<Value>): (r: seq<Value>)
    ensures |r| == |xs|
  {
    seq(|xs|, i requires 0 <= i < |xs| => if xs[i].None? then None else Some(Abs(xs[i].value)))
  }

  function ChannelAt(gap: Value, spread: Value): Value {
    if gap.None? || spread.None? || Times(0.015, spread.value) == 0.0 then None
    else Some(Divide(gap.value, Times(0.015, spread.value)))
  }

  /** The channel index of the wave trend. */
  function Channel(source: seq<Value>, n1: int): (r: seq<Value>)
    ensures |r| == |source|
  {
    var gap := MinusColumn(source, Ema(source, n1));
    var spread := Ema(AbsColumn(gap), n1);
    seq(|source|, i requires 0 <= i < |source| => ChannelAt(gap[i], spread[i]))
  }

  function NWt(source: seq<Value>, n1: int, n2: int): seq<Value> {
    var wt1 := Ema(Channel(source, n1), n2);
    Normalized(MinusColumn(wt1, Sma(wt1, 4)), 0.0, 1.0)
  }

  /** Every finite wave-trend feature lies in the unit range. */
  lemma NWtInUnit(source: seq<Value>, n1: int, n2: int)
    ensures AllIn(NWt(source, n1, n2), 0.0, 1.0)
  {
    var wt1 := Ema(Channel(source, n1), n2);
    NormalizedInTarget(MinusColumn(wt1, Sma(wt1, 4)), 0.0, 1.0);
  }

  // ---------------------------------------------------------------- directional movement

  datatype Bars = Bars(high: seq<Value>, low: seq<Value>, close: seq<Value>) {
    ghost predicate Valid() {
      |high| == |close| && |low| == |close|
    }
  }

  /** `shift(1)` with the hole filled by zero or by the column itself. */
  function Previous(column: seq<Value>, i: nat, zeroFill: bool): Value
    requires i < |column|
  {
    if i > 0 && column[i - 1].Some? then column[i - 1]
    else if zeroFill then Some(0.0)
    else column[i]
  }

  /** The greater of the finite ones. */
  function MaxValue(x: Value, y: Value): Value {
    if x.None? then y else if y.None? then x else Some(Max(x.value, y.value))
  }

  function AbsMinus(x: Value, y: Value): Value {
    if x.Some? && y.Some? then Some(Abs(x.value - y.value)) else None
  }

  function TrueRange(bars: Bars, i: nat, zeroFill: bool): Value
    requires bars.Valid() && i < |bars.close|
  {
    var previousClose := Previous(bars.close, i, zeroFill);
    MaxValue(MaxValue(Minus(bars.high[i], bars.low[i]), AbsMinus(bars.high[i], previousClose)),
             AbsMinus(bars.low[i], previousClose))
  }

  function Up(bars: Bars, i: nat, zeroFill: bool): Value
    requires bars.Valid() && i < |bars.close|
  {
    Minus(bars.high[i], Previous(bars.high, i, zeroFill))
  }

  function Down(bars: Bars, i: nat, zeroFill: bool): Value
    requires bars.Valid() && i < |bars.close|
  {
    Minus(Previous(bars.low, i, zeroFill), bars.low[i])
  }

  /** The winning move when it is upward, or nothing. */
  function Winner(mine: Value, other: Value): (r: real)
    ensures r >= 0.0
  {
    if mine.Some? && other.Some? && mine.value > other.value then Max(mine.value, 0.0) else 0.0
  }

  function Decayed(previous: real, length: int): real
    requires length != 0
  {
    previous - Divide(previous, length as real)
  }

  datatype Movement = Movement(range: Value, plus: real, minus: real)

  /** One bar added to the running sums; a missing range stays missing. */
  function AddBar(before: Movement, range: Value, up: Value, down: Value, length: int): Movement
    requires length != 0
  {
    Movement(
      if before.range.None? || range.None? then None else Some(Decayed(before.range.value, length) + range.value),
      Decayed(before.plus, length) + Winner(up, down),
      Decayed(before.minus, length) + Winner(down, up))
  }

  /** The three running sums after `count` bars. */
  function Movements(bars: Bars, count: nat, length: int, zeroFill: bool): Movement
    requires bars.Valid() && count <= |bars.close| && length != 0
  {
    if count == 0 then
      Movement(Some(0.0), 0.0, 0.0)
    else
      AddBar(Movements(bars, count - 1, length, zeroFill), TrueRange(bars, count - 1, zeroFill),
             Up(bars, count - 1, zeroFill), Down(bars, count - 1, zeroFill), length)
  }

  /** The directional index of one bar in percent. */
  function Dx(m: Movement): Value {
    if m.range.None? || m.range.value == 0.0 then None
    else
      var plus := Times(Divide(m.plus, m.range.value), 100.0);
      var minus := Times(Divide(m.minus, m.range.value), 100.0);
      if plus + minus == 0.0 then None
      else Some(Times(Divide(Abs(plus - minus), plus + minus), 100.0))
  }

  function DxColumn(bars: Bars, length: int, zeroFill: bool): (r: seq<Value>)
    requires bars.Valid() && length != 0
    ensures |r| == |bars.close|
  {
    seq(|bars.close|, i requires 0 <= i < |bars.close| => Dx(Movements(bars, i + 1, length, zeroFill)))
  }

  /** The smoothing loop of the three running sums; a zero length divides by zero on the first bar. */
  method SmoothMovements(bars: Bars, length: int, zeroFill: bool) returns (raised: bool, sums: seq<Movement>)
    requires bars.Valid()
    ensures raised <==> length == 0 && bars.close != []
    ensures !raised ==> |sums| == |bars.close|
    ensures !raised && length != 0 ==>
              forall i :: 0 <= i < |bars.close| ==> sums[i] == Movements(bars, i + 1, length, zeroFill)
  {
    raised, sums := false, [];
    var last := Movement(Some(0.0), 0.0, 0.0);
    for i := 0 to |bars.close|
      invariant |sums| == i && (i > 0 ==> length != 0)
      invariant length != 0 ==> last == Movements(bars, i, length, zeroFill)
      invariant length != 0 ==> forall j :: 0 <= j < i ==> sums[j] == Movements(bars, j + 1, length, zeroFill)
    {
      if length == 0 {
        raised := true;
        return;
      }
      last := AddBar(last, TrueRange(bars, i, zeroFill), Up(bars, i, zeroFill), Down(bars, i, zeroFill), length);
      sums := sums + [last];
    }
  }

  /** A bar whose low is above its high and that has no close to measure from, neither its own nor the one before. */
  predicate BlindInversion(bars: Bars, i: nat)
    requires bars.Valid() && i < |bars.close|
  {
    && bars.high[i].Some? && bars.low[i].Some? && bars.high[i].value < bars.low[i].value
    && bars.close[i].None? && (i == 0 || bars.close[i - 1].None?)
  }

  /** The true range of a bar is negative exactly at a blind inversion whose hole is not filled with zero. */
  lemma RangeNotNegativeExactly(bars: Bars, i: nat, zeroFill: bool)
    requires bars.Valid() && i < |bars.close|
    ensures NotNegative(TrueRange(bars, i, zeroFill)) <==> zeroFill || !BlindInversion(bars, i)
  {
  }

  ghost predicate NoBlindInversion(bars: Bars)
    requires bars.Valid()
  {
    forall i :: 0 <= i < |bars.close| ==> !BlindInversion(bars, i)
  }

  lemma DecayedNotNegative(previous: real, length: int)
    requires previous >= 0.0 && length >= 1
    ensures Decayed(previous, length) >= 0.0
  {
    QuotientInHull(previous, length as real, 0.0, previous) by {
      TimesIsMonotone(previous, 1.0, length as real);
      assert Times(length as real, previous) == Times(previous, length as real);
      assert Times(previous, 1.0) == previous && Times(length as real, 0.0) == 0.0;
    }
  }

  /** The two directional sums are never negative, and the range is not without a blind inversion. */
  lemma {:induction false} MovementsNotNegative(bars: Bars, count: nat, length: int, zeroFill: bool)
    requires bars.Valid() && count <= |bars.close| && length >= 1
    ensures var m := Movements(bars, count, length, zeroFill);
            && m.plus >= 0.0 && m.minus >= 0.0
            && (zeroFill || NoBlindInversion(bars) ==> NotNegative(m.range))
  {
    if count > 0 {
      var before := Movements(bars, count - 1, length, zeroFill);
      MovementsNotNegative(bars, count - 1, length, zeroFill);
      RangeNotNegativeExactly(bars, count - 1, zeroFill);
      DecayedNotNegative(before.plus, length);
      DecayedNotNegative(before.minus, length);
      if before.range.Some? && before.range.value >= 0.0 {
        DecayedNotNegative(before.range.value, length);
      }
    }
  }

  lemma DxInPercent(m: Movement)
    requires NotNegative(m.range) && m.plus >= 0.0 && m.minus >= 0.0
    ensures In(Dx(m), 0.0, 100.0)
  {
    if Dx(m).Some? {
      RatioNotNegative(m.plus, m.range.value);
      RatioNotNegative(m.minus, m.range.value);
      var plus := Times(Divide(m.plus, m.range.value), 100.0);
      var minus := Times(Divide(m.minus, m.range.value), 100.0);
      ShareInUnit(Abs(plus - minus), plus + minus);
    }
  }

  lemma NegativeRatio(x: real, y: real)
    requires x >= 0.0 && y < 0.0
    ensures Divide(x, y) <= 0.0 && (x > 0.0 ==> Divide(x, y) < 0.0)
  {
  }

  lemma RatiosDiffer(x: real, y: real, d: real)
    requires d != 0.0
    ensures Divide(x, d) == Divide(y, d) <==> x == y
  {
    DivideUndoes(x, d);
    DivideUndoes(y, d);
  }

  /** On a negative range the index is negative unless the two sums agree. */
  lemma DxOnNegativeRange(m: Movement)
    requires m.range.Some? && m.range.value < 0.0 && m.plus >= 0.0 && m.minus >= 0.0
    ensures In(Dx(m), 0.0, 100.0) <==> m.plus == m.minus
  {
    var plus := Times(Divide(m.plus, m.range.value), 100.0);
    var minus := Times(Divide(m.minus, m.range.value), 100.0);
    NegativeRatio(m.plus, m.range.value);
    NegativeRatio(m.minus, m.range.value);
    RatiosDiffer(m.plus, m.minus, m.range.value);
    if m.plus == m.minus {
      if plus + minus != 0.0 {
        ZeroRatio(plus + minus);
      }
    } else {
      NegativeRatio(Abs(plus - minus), plus + minus);
    }
  }

  /** The index of non-negative sums is a percentage exactly when the range is not negative or the sums agree. */
  lemma DxInPercentExactly(m: Movement)
    requires m.plus >= 0.0 && m.minus >= 0.0
    ensures In(Dx(m), 0.0, 100.0) <==> NotNegative(m.range) || m.plus == m.minus
  {
    if NotNegative(m.range) {
      DxInPercent(m);
    } else {
      DxOnNegativeRange(m);
    }
  }

  /** The average directional index: nothing at all for a negative length, an error for length zero. */
  function NAdx(bars: Bars, length: int, zeroFill: bool): (r: seq<Value>)
    requires bars.Valid() && length != 0
    ensures |r| == |bars.close|
  {
    RescaleColumn(Rma(DxColumn(bars, length, zeroFill), length), 0.0, 100.0, 0.0, 1.0)
  }

  /** Every finite ADX feature lies in the unit range when holes are filled with zero or no inversion is blind. */
  lemma NAdxInUnit(bars: Bars, length: int, zeroFill: bool)
    requires bars.Valid() && length != 0 && (zeroFill || NoBlindInversion(bars))
    ensures AllIn(NAdx(bars, length, zeroFill), 0.0, 1.0)
  {
    var dx := DxColumn(bars, length, zeroFill);
    if length >= 1 {
      forall i | 0 <= i < |dx| ensures In(dx[i], 0.0, 100.0) {
        MovementsNotNegative(bars, i + 1, length, zeroFill);
        DxInPercentExactly(Movements(bars, i + 1, length, zeroFill));
      }
      ColumnsInHull(dx, length, 0.0, 100.0);
    }
    PercentColumn(Rma(dx, length));
  }

  // ---------------------------------------------------------------- the exact condition at length one

  /** All true ranges up to bar `i` are finite: one that is not keeps the smoothed range missing from then on. */
  predicate RangesFinite(bars: Bars, i: nat)
    requires bars.Valid() && i < |bars.close|
  {
    forall j :: 0 <= j <= i ==> TrueRange(bars, j, false).Some?
  }

  /** A bar that takes the feature out of range: a blind inversion that moved, on a range never missing before. */
  predicate LeavesRange(bars: Bars, i: nat)
    requires bars.Valid() && i < |bars.close|
  {
    && BlindInversion(bars, i) && RangesFinite(bars, i)
    && Winner(Up(bars, i, false), Down(bars, i, false)) != Winner(Down(bars, i, false), Up(bars, i, false))
  }

  lemma DecayedAtLengthOne(x: real, length: int)
    requires length == 1
    ensures Decayed(x, length) == 0.0
  {
  }

  lemma {:induction false} MovementsAtLengthOne(bars: Bars, i: nat, length: int)
    requires bars.Valid() && i < |bars.close| && length == 1
    ensures Movements(bars, i + 1, length, false)
            == Movement(if RangesFinite(bars, i) then TrueRange(bars, i, false) else None,
                        Winner(Up(bars, i, false), Down(bars, i, false)),
                        Winner(Down(bars, i, false), Up(bars, i, false)))
  {
    var before := Movements(bars, i, length, false);
    if i > 0 {
      MovementsAtLengthOne(bars, i - 1, length);
      assert RangesFinite(bars, i) <==> RangesFinite(bars, i - 1) && TrueRange(bars, i, false).Some?;
    } else {
      assert before == Movement(Some(0.0), 0.0, 0.0);
    }
    DecayedAtLengthOne(before.plus, length);
    DecayedAtLengthOne(before.minus, length);
    if before.range.Some? {
      DecayedAtLengthOne(before.range.value, length);
    }
  }

  lemma DxAtLengthOne(bars: Bars, i: nat, length: int)
    requires bars.Valid() && i < |bars.close| && length == 1
    ensures In(DxColumn(bars, length, false)[i], 0.0, 100.0) <==> !LeavesRange(bars, i)
  {
    MovementsAtLengthOne(bars, i, length);
    RangeNotNegativeExactly(bars, i, false);
    DxInPercentExactly(Movements(bars, i + 1, length, false));
  }

  /** At period one the average is the value itself, or the last one there was. */
  lemma {:induction false} AverageOfOne(values: seq<Value>, count: nat, period: int)
    requires count < |values| && period == 1
    ensures values[count].Some? ==> After(values, count + 1, period, RmaAlpha(period)).previous == values[count]
    ensures After(values, count, period, RmaAlpha(period)).previous.None?
            ==> After(values, count, period, RmaAlpha(period)).seeds == []
  {
    if count > 0 {
      AverageOfOne(values, count - 1, period);
    }
    var s := After(values, count, period, RmaAlpha(period));
    if values[count].Some? {
      var x := values[count].value;
      assert [] + [x] == [x];
      assert Sum([x]) == x by { assert [x][..0] == [] && Sum([]) == 0.0; }
      assert Mean([x]) == x;
      assert RmaAlpha(period) == 1.0;
      if s.previous.Some? {
        BlendOfOne(x, s.previous.value);
      }
    }
  }

  lemma BlendOfOne(x: real, y: real)
    ensures Blend(1.0, x, y) == x
  {
  }

  lemma RescaleLeaves(v: Value)
    ensures In(Rescale(v, 0.0, 100.0, 0.0, 1.0), 0.0, 1.0) <==> In(v, 0.0, 100.0)
  {
  }

  /** At length one the whole column lies in the unit range exactly when no bar leaves it. */
  lemma NAdxInUnitExactly(bars: Bars, length: int)
    requires bars.Valid() && length == 1
    ensures AllIn(NAdx(bars, length, false), 0.0, 1.0)
            <==> forall i :: 0 <= i < |bars.close| ==> !LeavesRange(bars, i)
  {
    var dx := DxColumn(bars, length, false);
    var column := Rma(dx, length);
    forall i | 0 <= i < |dx| ensures In(dx[i], 0.0, 100.0) <==> !LeavesRange(bars, i) {
      DxAtLengthOne(bars, i, length);
    }
    if forall i :: 0 <= i < |bars.close| ==> !LeavesRange(bars, i) {
      ColumnsInHull(dx, length, 0.0, 100.0);
      PercentColumn(column);
    } else {
      var i :| 0 <= i < |bars.close| && LeavesRange(bars, i);
      AverageOfOne(dx, i, length);
      RescaleLeaves(column[i]);
      assert !In(NAdx(bars, length, false)[i], 0.0, 1.0);
    }
  }

  // ---------------------------------------------------------------- and at every length

  lemma OppositeRatio(x: real)
    requires x < 0.0
    ensures Divide(-x, x) == -1.0
  {
    var q := Divide(-x, x);
    DivideUndoes(-x, x);
    assert Times(-x, q) == -Times(q, x) && Times(-x, -1.0) == x;
    if q < -1.0 {
      StrictlyMore(-x, q, -1.0);
    }
    if q > -1.0 {
      StrictlyMore(-x, -1.0, q);
    }
  }

  /** A range below zero and movement one way only give minus one hundred. */
  lemma DxOfNegativeRange(m: Movement)
    requires m.range.Some? && m.range.value < 0.0 && m.plus > 0.0 && m.minus == 0.0
    ensures Dx(m) == Some(-100.0)
  {
    NegativeRatio(m.plus, m.range.value);
    ZeroRatio(m.range.value);
    var up := Times(Divide(m.plus, m.range.value), 100.0);
    assert up < 0.0 && Times(Divide(m.minus, m.range.value), 100.0) == 0.0;
    OppositeRatio(up);
    assert Dx(m) == Some(Times(Divide(Abs(up), up), 100.0));
    assert Abs(up) == -up;
  }

  /** Blind inversions of one unit, each bar a step above the one before. */
  ghost predicate Drifting(bars: Bars, rise: real) {
    bars.Valid() && rise > 0.0 && forall i :: 0 <= i < |bars.close| ==> DriftsAt(bars, i, rise)
  }

  ghost predicate DriftsAt(bars: Bars, i: nat, rise: real)
    requires bars.Valid() && i < |bars.close|
  {
    && bars.close[i].None? && bars.high[i].Some? && bars.low[i].Some?
    && bars.low[i].value == bars.high[i].value + 1.0
    && (i > 0 ==> bars.high[i - 1].Some? && bars.low[i - 1].Some? && bars.close[i - 1].None?
                  && bars.high[i].value == bars.high[i - 1].value + rise
                  && bars.low[i].value == bars.low[i - 1].value + rise)
  }

  lemma DriftingBar(bars: Bars, i: nat, rise: real)
    requires Drifting(bars, rise) && i < |bars.close|
    ensures BlindInversion(bars, i) && TrueRange(bars, i, false) == Some(-1.0)
    ensures Winner(Down(bars, i, false), Up(bars, i, false)) == 0.0
    ensures Winner(Up(bars, i, false), Down(bars, i, false)) == if i > 0 then rise else 0.0
  {
    assert DriftsAt(bars, i, rise);
  }

  lemma DecayedNotPositive(previous: real, length: int)
    requires previous <= 0.0 && length >= 1
    ensures Decayed(previous, length) <= 0.0
  {
    DecayedNotNegative(-previous, length);
    NegatedRatio(previous, length as real);
  }

  lemma NegatedRatio(x: real, y: real)
    requires y > 0.0
    ensures Divide(-x, y) == -Divide(x, y)
  {
    var p, q := Divide(-x, y), Divide(x, y);
    DivideUndoes(-x, y);
    DivideUndoes(x, y);
    assert Times(p + q, y) == Times(p, y) + Times(q, y) == 0.0 by { Distributes(p, q, y); }
    assert Times(p + q, y) == Times(y, p + q) && Times(y, 0.0) == 0.0;
    if p + q > 0.0 {
      StrictlyMore(y, 0.0, p + q);
    }
    if p + q < 0.0 {
      StrictlyMore(y, p + q, 0.0);
    }
  }

  lemma NextMovements(bars: Bars, count: nat, length: int, zeroFill: bool)
    requires bars.Valid() && count < |bars.close| && length != 0
    ensures Movements(bars, count + 1, length, zeroFill)
            == AddBar(Movements(bars, count, length, zeroFill), TrueRange(bars, count, zeroFill),
                      Up(bars, count, zeroFill), Down(bars, count, zeroFill), length)
  {
  }

  lemma {:induction false} DriftingMovements(bars: Bars, count: nat, length: int, rise: real)
    requires Drifting(bars, rise) && count <= |bars.close| && length >= 1
    ensures var m := Movements(bars, count, length, false);
            && m.range.Some? && m.range.value <= 0.0 && (count > 0 ==> m.range.value < 0.0)
            && m.minus == 0.0 && m.plus >= 0.0 && (count > 1 ==> m.plus > 0.0)
  {
    if count > 0 {
      var before := Movements(bars, count - 1, length, false);
      DriftingMovements(bars, count - 1, length, rise);
      DriftingBar(bars, count - 1, rise);
      NextMovements(bars, count - 1, length, false);
      DecayedNotPositive(before.range.value, length);
      DecayedNotNegative(before.plus, length);
      DecayedNotNegative(before.minus, length);
      DecayedNotPositive(before.minus, length);
    }
  }

  lemma DxOfNothing(m: Movement)
    requires m.range.Some? && m.range.value != 0.0 && m.plus == 0.0 && m.minus == 0.0
    ensures Dx(m) == None
  {
    ZeroRatio(m.range.value);
  }

  lemma DriftingDx(bars: Bars, length: int, rise: real, i: nat)
    requires Drifting(bars, rise) && length >= 1 && i < |bars.close|
    ensures DxColumn(bars, length, false)[i] == if i == 0 then None else Some(-100.0)
  {
    DriftingMovements(bars, i + 1, length, rise);
    if i == 0 {
      var none := Movements(bars, 0, length, false);
      NextMovements(bars, 0, length, false);
      DriftingBar(bars, 0, rise);
      DecayedNotNegative(none.plus, length);
      DecayedNotPositive(none.plus, length);
      DxOfNothing(Movements(bars, 1, length, false));
    } else {
      DxOfNegativeRange(Movements(bars, i + 1, length, false));
    }
  }

  lemma {:induction false} CountAfterFirst(values: seq<Value>)
    requires values != [] && values[0].None? && forall i :: 0 < i < |values| ==> values[i].Some?
    ensures FiniteCount(values) == |values| - 1
  {
    if |values| > 1 {
      CountAfterFirst(values[..|values| - 1]);
    } else {
      assert FiniteCount(values[..0]) == 0;
    }
  }

  /** The condition is needed at every length: drifting blind inversions take the feature to minus one. */
  lemma InvertedBarsLeaveTheRange(bars: Bars, length: int, rise: real)
    requires Drifting(bars, rise) && length >= 1 && |bars.close| > length
    ensures NAdx(bars, length, false)[length] == Some(-1.0)
  {
    var dx := DxColumn(bars, length, false);
    forall i | 0 <= i < |dx| ensures dx[i] == if i == 0 then None else Some(-100.0) {
      DriftingDx(bars, length, rise, i);
    }
    CountAfterFirst(dx[..length + 1]);
    WarmUpExactly(dx, length + 1, length, RmaAlpha(length));
    AveragesInHull(dx, length, length, -100.0, -100.0);
    assert Rma(dx, length)[length] == Some(-100.0);
    MinusOne();
  }

  lemma MinusOne()
    ensures Rescale(Some(-100.0), 0.0, 100.0, 0.0, 1.0) == Some(-1.0)
  {
  }

  /** There are such bars, as many as asked for. */
  lemma DriftingBarsExist(n: nat) returns (bars: Bars)
    ensures |bars.close| == n && Drifting(bars, 1.0)
  {
    bars := Bars(seq(n, i => Some(i as real)), seq(n, i => Some(i as real + 1.0)), seq(n, i => None));
    forall i | 0 <= i < n ensures DriftsAt(bars, i, 1.0) {
    }
  }
}
