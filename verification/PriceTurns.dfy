/** The relative strength of length one, smoothed over one bar: the direction of the last move of the price. */
module PriceTurns {
  import opened Options
  import opened Features
  import opened FeatureCausality
  import opened Neighbours
  import opened NoRepainting
  import opened PriceFrames

  /** A frame whose candles trade at the close alone. */
  function PriceBars(closes: seq<real>): (bars: Bars)
    ensures bars.Valid() && |bars.close| == |closes|
  {
    var column := seq(|closes|, i requires 0 <= i < |closes| => Some(closes[i]));
    Bars(column, column, column)
  }

  const TURN := Definition(RSI, 1, 1)

  /** One for a rise, zero for a fall, and what it was before while the price stands still. */
  function Turn(closes: seq<real>, i: nat): Value
    requires i < |closes|
  {
    if i == 0 then None
    else if closes[i] > closes[i - 1] then Some(1.0)
    else if closes[i] < closes[i - 1] then Some(0.0)
    else Turn(closes, i - 1)
  }

  /** At period one an average is the last value there was. */
  lemma AverageOfOneStep(values: seq<Value>, i: nat, period: int)
    requires i < |values| && period == 1
    ensures Rma(values, period)[i]
            == if values[i].Some? then values[i] else if i == 0 then None else Rma(values, period)[i - 1]
    ensures Ema(values, period) == Rma(values, period)
  {
    AverageOfOne(values, i, period);
    assert EmaAlpha(period) == RmaAlpha(period);
    if i == 0 {
      assert After(values, 0, period, RmaAlpha(period)) == Smoother([], None);
    }
  }

  /** The strength of one bar's move. */
  function MoveAt(closes: seq<real>, i: nat): Value
    requires i < |closes|
  {
    if i == 0 || closes[i] == closes[i - 1] then None else Some(if closes[i] > closes[i - 1] then 100.0 else 0.0)
  }

  lemma StrengthOfMove(gain: real, loss: real)
    requires gain >= 0.0 && loss >= 0.0 && (gain == 0.0 || loss == 0.0)
    ensures Strength(Some(gain), Some(loss))
            == if gain > 0.0 then Some(100.0) else if loss > 0.0 then Some(0.0) else None
  {
  }

  function Rise(x: real, y: real): real {
    if y > x then y - x else 0.0
  }

  lemma MoveParts(closes: seq<real>, i: nat)
    requires i < |closes|
    ensures var values := PriceBars(closes).close;
            && Gains(values)[i] == (if i == 0 then None else Some(Rise(closes[i - 1], closes[i])))
            && Losses(values)[i] == if i == 0 then None else Some(Rise(closes[i], closes[i - 1]))
  {
    assert Diff(PriceBars(closes).close)[i] == if i == 0 then None else Some(closes[i] - closes[i - 1]);
  }

  /** At length one the averaged gain and loss are those of the bar itself. */
  lemma AveragedMove(closes: seq<real>, i: nat, period: int)
    requires i < |closes| && period == 1
    ensures var values := PriceBars(closes).close;
            && Rma(Gains(values), period)[i] == (if i == 0 then None else Some(Rise(closes[i - 1], closes[i])))
            && Rma(Losses(values), period)[i] == if i == 0 then None else Some(Rise(closes[i], closes[i - 1]))
  {
    MoveParts(closes, i);
    AverageOfOneStep(Gains(PriceBars(closes).close), i, period);
    AverageOfOneStep(Losses(PriceBars(closes).close), i, period);
  }

  lemma RsiIsMove(closes: seq<real>, i: nat, period: int)
    requires i < |closes| && period == 1
    ensures Rsi(PriceBars(closes).close, period)[i] == MoveAt(closes, i)
  {
    GainsAndLosses(PriceBars(closes).close, period, i);
    AveragedMove(closes, i, period);
    if i > 0 {
      StrengthOfMove(Rise(closes[i - 1], closes[i]), Rise(closes[i], closes[i - 1]));
    }
  }

  lemma {:induction false} EmaIsTurn(closes: seq<real>, i: nat, period: int)
    requires i < |closes| && period == 1
    ensures var column := Ema(Rsi(PriceBars(closes).close, period), period);
            column[i] == if Turn(closes, i) == Some(1.0) then Some(100.0) else Turn(closes, i)
  {
    RsiIsMove(closes, i, period);
    AverageOfOneStep(Rsi(PriceBars(closes).close, period), i, period);
    if i > 0 {
      EmaIsTurn(closes, i - 1, period);
    }
  }

  lemma ZeroStaysZero()
    ensures Rescale(Some(0.0), 0.0, 100.0, 0.0, 1.0) == Some(0.0)
  {
  }

  lemma {:induction false} TurnRange(closes: seq<real>, i: nat)
    requires i < |closes|
    ensures Turn(closes, i) in {None, Some(0.0), Some(1.0)}
  {
    if i > 0 {
      TurnRange(closes, i - 1);
    }
  }

  lemma TurnColumn(closes: seq<real>, i: nat)
    requires i < |closes|
    ensures NRsi(PriceBars(closes).close, 1, 1)[i] == Turn(closes, i)
  {
    EmaIsTurn(closes, i, 1);
    TurnRange(closes, i);
    HundredIsOne();
    ZeroStaysZero();
  }

  /** Bars whose only feature is the turn and whose source is the close. */
  ghost predicate Shown(bars: seq<Bar>, closes: seq<real>) {
    && |bars| == |closes|
    && forall i :: 0 <= i < |bars| ==> bars[i].features == [Turn(closes, i)] && bars[i].source == closes[i]
  }

  ghost predicate Sources(rest: seq<Bar>, closes: seq<real>) {
    |rest| == |closes| && forall i :: 0 <= i < |rest| ==> rest[i].source == closes[i]
  }

  /** That is what the classifier receives of such prices, whatever else it reads of the bars. */
  lemma FeaturedIsShown(closes: seq<real>, rest: seq<Bar>)
    requires Sources(rest, closes)
    ensures Computable(PriceBars(closes), [TURN]) && Shown(Featured(PriceBars(closes), [TURN], rest), closes)
  {
    var bars := PriceBars(closes);
    forall i | 0 <= i < |closes| ensures VectorAt(bars, [TURN], i) == [Turn(closes, i)] {
      TurnColumn(closes, i);
      assert VectorAt(bars, [TURN], i)[0] == FeatureSeries(bars, TURN).value[i];
    }
  }

  lemma ShownDistance(core: Config, scale: real -> real, bars: seq<Bar>, closes: seq<real>, i: nat, j: nat)
    requires Measures(core, scale) && Shown(bars, closes) && i < |bars| && j < |bars|
    ensures Between(core, bars, i, j) == Component(scale, Turn(closes, i), Turn(closes, j))
  {
    var x, y := bars[i].features, bars[j].features;
    assert core.distance(x, y) == SumDistance(scale, x, y);
    assert SumDistance(scale, x[1..], y[1..]) == Some(0.0);
  }

  lemma ShownPrefix(bars: seq<Bar>, closes: seq<real>, n: nat)
    requires Shown(bars, closes) && n <= |bars|
    ensures Shown(bars[..n], closes[..n])
  {
    forall i | 0 <= i < n ensures Turn(closes[..n], i) == Turn(closes, i) {
      TurnIgnoresFuture(closes, n, i);
    }
  }

  lemma {:induction false} TurnIgnoresFuture(closes: seq<real>, n: nat, i: nat)
    requires i < n <= |closes|
    ensures Turn(closes[..n], i) == Turn(closes, i)
  {
    if i > 0 {
      TurnIgnoresFuture(closes, n, i - 1);
    }
  }
}
