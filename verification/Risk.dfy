/** Stop distance, initial stop and position size. */
module Risk {
  import opened Reals
  import opened Sides

  datatype RiskConfig = RiskConfig(
    initialEquity: real,
    riskPerTrade: real,
    leverageCap: real,
    useFixedStop: bool,
    fixedStopPct: real,
    atrMultiplier: real,
    minStopPct: real)

  /** `compute_stop_distance`, given the ATR at the bar. */
  function StopDistance(atr: real, price: real, risk: RiskConfig): real {
    if risk.useFixedStop then price * risk.fixedStopPct
    else Max(atr * risk.atrMultiplier, price * risk.minStopPct)
  }

  /** `compute_initial_stop`. */
  function InitialStop(atr: real, side: Side, price: real, risk: RiskConfig): real {
    if side == Long then price - StopDistance(atr, price, risk) else price + StopDistance(atr, price, risk)
  }

  const TINY := 0.000000001

  /** `compute_position_size`. */
  function PositionSize(equity: real, entry: real, stop: real, risk: RiskConfig): real {
    var distance := Abs(entry - stop);
    if distance <= 0.0 then 0.0
    else
      var raw := (equity * risk.riskPerTrade) / distance;
      var capped := Min(raw, (equity * risk.leverageCap) / Max(entry, TINY));
      Max(capped, 0.0)
  }

  lemma AtMostQuotient(q: real, a: real, d: real)
    requires d > 0.0
    ensures q <= a / d <==> q * d <= a
  {
    var r := a / d;
    assert r * d == a;
    assert q <= r ==> q * d <= r * d;
    assert q > r ==> q * d > r * d;
  }

  /** The size is the largest one that risks at most the budget down to the stop and stays under the
      leverage cap; there is none with a budget below zero, and then nothing is opened. */
  lemma PositionSizeIsLargest(equity: real, entry: real, stop: real, risk: RiskConfig, q: real)
    requires entry != stop && q >= 0.0
    requires equity * risk.riskPerTrade >= 0.0 && equity * risk.leverageCap >= 0.0
    ensures q <= PositionSize(equity, entry, stop, risk) <==>
            q * Abs(entry - stop) <= equity * risk.riskPerTrade
            && q * Max(entry, TINY) <= equity * risk.leverageCap
  {
    var budget, cap := equity * risk.riskPerTrade, equity * risk.leverageCap;
    AtMostQuotient(q, budget, Abs(entry - stop));
    AtMostQuotient(q, cap, Max(entry, TINY));
    AtMostQuotient(0.0, budget, Abs(entry - stop));
    AtMostQuotient(0.0, cap, Max(entry, TINY));
  }

  lemma PositionSizeWithin(equity: real, entry: real, stop: real, risk: RiskConfig)
    ensures var q := PositionSize(equity, entry, stop, risk);
            q > 0.0 ==>
              && q * Abs(entry - stop) <= equity * risk.riskPerTrade
              && entry * q <= equity * risk.leverageCap
  {
    var q := PositionSize(equity, entry, stop, risk);
    if q > 0.0 {
      AtMostQuotient(q, equity * risk.riskPerTrade, Abs(entry - stop));
      AtMostQuotient(q, equity * risk.leverageCap, Max(entry, TINY));
      ScaledOrder(entry, Max(entry, TINY), q);
    }
  }

  lemma ScaledOrder(x: real, y: real, q: real)
    requires x <= y && q >= 0.0
    ensures x * q <= y * q
  {
  }
}
