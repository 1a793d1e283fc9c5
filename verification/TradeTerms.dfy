/** On what terms a position is opened and settled, told from candles, signals and settings alone. */
module TradeTerms {
  import opened Options
  import opened Reals
  import opened Sides
  import opened Risk
  import opened Ledger

  // ---------------------------------------------------------------- opening

  /** The stop lies below a long and above a short, by the fixed share of the price, or by the greater of the scaled
      average range and the least share. */
  ghost predicate Stopped(side: Side, price: real, stop: real, atr: real, risk: RiskConfig) {
    var distance := if side == Long then price - stop else stop - price;
    if risk.useFixedStop then distance == price * risk.fixedStopPct
    else
      && distance >= atr * risk.atrMultiplier && distance >= price * risk.minStopPct
      && (distance == atr * risk.atrMultiplier || distance == price * risk.minStopPct)
  }

  /** A quantity that loses at most the budget between two prices, under the leverage cap. */
  predicate Affordable(q: real, price: real, stop: real, equity: real, risk: RiskConfig) {
    && q * (if price >= stop then price - stop else stop - price) <= equity * risk.riskPerTrade
    && q * (if price >= 0.000000001 then price else 0.000000001) <= equity * risk.leverageCap
  }

  /** The quantity is positive and the largest affordable one. */
  ghost predicate Largest(quantity: real, price: real, stop: real, equity: real, risk: RiskConfig) {
    && quantity > 0.0 && price != stop
    && forall q :: q >= 0.0 ==> (q <= quantity <==> Affordable(q, price, stop, equity, risk))
  }

  /** A position of some size can be opened at this price. */
  ghost predicate Openable(side: Side, price: real, atr: real, equity: real, risk: RiskConfig) {
    exists stop ::
      Stopped(side, price, stop, atr, risk) && price != stop && SomethingAffordable(price, stop, equity, risk)
  }

  ghost predicate SomethingAffordable(price: real, stop: real, equity: real, risk: RiskConfig) {
    exists q :: q > 0.0 && Affordable(q, price, stop, equity, risk)
  }

  /** The budget and the cap, when something positive is affordable. */
  lemma AffordableMeans(q: real, price: real, stop: real, equity: real, risk: RiskConfig)
    requires q > 0.0 && Affordable(q, price, stop, equity, risk)
    ensures equity * risk.riskPerTrade >= 0.0 && equity * risk.leverageCap >= 0.0
  {
    NotNegativeProduct(q, if price >= stop then price - stop else stop - price);
    NotNegativeProduct(q, if price >= 0.000000001 then price else 0.000000001);
  }

  lemma NotNegativeProduct(a: real, b: real)
    requires a >= 0.0 && b >= 0.0
    ensures a * b >= 0.0
  {
  }

  lemma SizeIsAffordable(price: real, stop: real, equity: real, risk: RiskConfig, q: real)
    requires price != stop && q >= 0.0
    requires equity * risk.riskPerTrade >= 0.0 && equity * risk.leverageCap >= 0.0
    ensures q <= PositionSize(equity, price, stop, risk) <==> Affordable(q, price, stop, equity, risk)
  {
    PositionSizeIsLargest(equity, price, stop, risk, q);
  }

  lemma PositiveSizeIsWithin(price: real, stop: real, equity: real, risk: RiskConfig)
    requires PositionSize(equity, price, stop, risk) > 0.0
    ensures price != stop
    ensures equity * risk.riskPerTrade >= 0.0 && equity * risk.leverageCap >= 0.0
  {
    AtMostQuotient(0.0, equity * risk.riskPerTrade, Abs(price - stop));
    AtMostQuotient(0.0, equity * risk.leverageCap, Max(price, TINY));
  }

  /** The stop is where it should be, and nowhere else. */
  lemma StopIsInitialStop(side: Side, price: real, stop: real, atr: real, risk: RiskConfig)
    ensures Stopped(side, price, stop, atr, risk) <==> stop == InitialStop(atr, side, price, risk)
  {
  }

  lemma SizeIsLargest(price: real, stop: real, equity: real, risk: RiskConfig)
    requires PositionSize(equity, price, stop, risk) > 0.0
    ensures Largest(PositionSize(equity, price, stop, risk), price, stop, equity, risk)
  {
    var quantity := PositionSize(equity, price, stop, risk);
    PositiveSizeIsWithin(price, stop, equity, risk);
    forall q | q >= 0.0 ensures q <= quantity <==> Affordable(q, price, stop, equity, risk) {
      SizeIsAffordable(price, stop, equity, risk, q);
    }
  }

  lemma SizedExactly(price: real, stop: real, equity: real, risk: RiskConfig)
    requires price != stop
    ensures PositionSize(equity, price, stop, risk) > 0.0 <==> SomethingAffordable(price, stop, equity, risk)
  {
    var quantity := PositionSize(equity, price, stop, risk);
    if quantity > 0.0 {
      SizeIsLargest(price, stop, equity, risk);
      assert Affordable(quantity, price, stop, equity, risk);
    }
    if q :| q > 0.0 && Affordable(q, price, stop, equity, risk) {
      AffordableMeans(q, price, stop, equity, risk);
      SizeIsAffordable(price, stop, equity, risk, q);
    }
  }

  /** What is opened: nothing when no size is affordable, otherwise a position at the price asked for, with its stop at
      the configured distance on the losing side, and of the largest affordable quantity. */
  lemma OpensExactly(side: Side, price: real, atr: real, timestamp: int, index: int, equity: real, cfg: Config)
    ensures var p := TryOpen(side, price, atr, timestamp, index, equity, cfg);
            && (p.Some? <==> Openable(side, price, atr, equity, cfg.risk))
            && (p.Some? ==>
                  && p.value.side == side && p.value.entryPrice == price
                  && p.value.entryTimestamp == timestamp && p.value.entryIndex == index
                  && Stopped(side, price, p.value.stopPrice, atr, cfg.risk)
                  && Largest(p.value.quantity, price, p.value.stopPrice, equity, cfg.risk))
  {
    var stop := InitialStop(atr, side, price, cfg.risk);
    forall other: real ensures Stopped(side, price, other, atr, cfg.risk) <==> other == stop {
      StopIsInitialStop(side, price, other, atr, cfg.risk);
    }
    if price != stop {
      SizedExactly(price, stop, equity, cfg.risk);
    }
    if PositionSize(equity, price, stop, cfg.risk) > 0.0 {
      SizeIsLargest(price, stop, equity, cfg.risk);
    }
  }

  /** With a positive price and a positive least distance the stop is on the losing side of the entry. */
  lemma StopIsProtective(side: Side, price: real, stop: real, atr: real, risk: RiskConfig)
    requires Stopped(side, price, stop, atr, risk) && price > 0.0
    requires if risk.useFixedStop then risk.fixedStopPct > 0.0 else risk.minStopPct > 0.0
    ensures if side == Long then stop < price else stop > price
  {
    PositiveProduct(price, if risk.useFixedStop then risk.fixedStopPct else risk.minStopPct);
  }

  lemma PositiveProduct(a: real, b: real)
    requires a > 0.0 && b > 0.0
    ensures a * b > 0.0
  {
  }

  lemma NegativeProduct(a: real, b: real)
    requires a < 0.0 && b > 0.0
    ensures a * b < 0.0
  {
  }

  // ---------------------------------------------------------------- signals and fills

  /** Whether a signal row starts a side that the settings allow. */
  predicate Starts(side: Side, s: Signals, cfg: Config) {
    match side
    case Long => s.startLong && cfg.allowLong
    case Short => s.startShort && cfg.allowShort
  }

  predicate Ends(side: Side, s: Signals) {
    match side
    case Long => s.endLong
    case Short => s.endShort
  }

  /** The candle trades at the stop or beyond it. */
  predicate Hits(p: Position, c: Candle) {
    match p.side
    case Long => c.low <= p.stopPrice
    case Short => p.stopPrice <= c.high
  }

  /** The worse of open and close for a buyer, or for a seller. */
  predicate WorseForBuyer(price: real, c: Candle) {
    price >= c.open && price >= c.close && (price == c.open || price == c.close)
  }

  predicate WorseForSeller(price: real, c: Candle) {
    price <= c.open && price <= c.close && (price == c.open || price == c.close)
  }

  /** A fill on the child candle: a long is bought and later sold, a short is sold and later bought back. */
  predicate OpensAt(side: Side, price: real, c: Candle) {
    if side == Long then WorseForBuyer(price, c) else WorseForSeller(price, c)
  }

  predicate ClosesAt(side: Side, price: real, c: Candle) {
    if side == Long then WorseForSeller(price, c) else WorseForBuyer(price, c)
  }

  lemma SameTests(p: Position, c: Candle, s: Signals)
    ensures StopHit(p, c) == Hits(p, c) && EndsSide(p.side, s) == Ends(p.side, s)
  {
  }

  /** A position of a side that the signals start, opened on the candle with the configured stop and size. */
  ghost predicate OpenedOn(p: Position, c: Candle, s: Signals, atr: real, equity: real, cfg: Config) {
    && Starts(p.side, s, cfg) && p.entryTimestamp == c.timestamp
    && Stopped(p.side, p.entryPrice, p.stopPrice, atr, cfg.risk)
    && Largest(p.quantity, p.entryPrice, p.stopPrice, equity, cfg.risk)
  }

  /** A position opened at the close of a candle. A row that starts both sides only tries long. */
  ghost predicate OpenedAtClose(p: Position, c: Candle, s: Signals, atr: real, equity: real, cfg: Config) {
    && p.entryPrice == c.close && OpenedOn(p, c, s, atr, equity, cfg)
    && (p.side == Short ==> !Starts(Long, s, cfg))
  }

  /** Nothing can be opened at the close of the candle. */
  ghost predicate NothingAtClose(s: Signals, c: Candle, atr: real, equity: real, cfg: Config) {
    && (Starts(Long, s, cfg) ==> !Openable(Long, c.close, atr, equity, cfg.risk))
    && (Starts(Short, s, cfg) && !Starts(Long, s, cfg) ==> !Openable(Short, c.close, atr, equity, cfg.risk))
  }

  // ---------------------------------------------------------------- settling

  /** The trade that closing the position at a price books: what was made on the move, less fees and slippage in basis
      points of the entry value, less funding on it for every bar held, at least one. */
  ghost predicate Settles(t: Trade, p: Position, price: real, timestamp: int, reason: ExitReason, bars: int,
      cfg: Config) {
    var made := if p.side == Long then price - p.entryPrice else p.entryPrice - price;
    var entryValue := p.entryPrice * p.quantity;
    var held := if bars >= 1 then bars else 1;
    && t.side == p.side && t.entryTimestamp == p.entryTimestamp && t.exitTimestamp == timestamp
    && t.entryPrice == p.entryPrice && t.exitPrice == price && t.quantity == p.quantity
    && t.reason == reason && t.barsHeld == held
    && t.gross == made * p.quantity
    && t.net == t.gross - entryValue * ((cfg.feeBps + cfg.slippageBps) / 10_000.0)
                - entryValue * cfg.fundingRatePerBar * held as real
  }

  /** What booking a trade does to an account. */
  predicate Books(before: Account, after: Account, t: Trade) {
    && after.equity == before.equity + t.net
    && after.trades == before.trades + [t] && after.points == before.points + [after.equity]
    && after.position.None?
  }

  function Last(a: Account): Trade
    requires a.trades != []
  {
    a.trades[|a.trades| - 1]
  }

  lemma CostsAdd(fee: real, slippage: real)
    ensures fee / 10_000.0 + slippage / 10_000.0 == (fee + slippage) / 10_000.0
  {
  }

  lemma TradeSettles(p: Position, price: real, timestamp: int, reason: ExitReason, index: int, cfg: Config)
    ensures Settles(TradeOf(p, timestamp, price, cfg, reason, index), p, price, timestamp, reason,
                    index - p.entryIndex, cfg)
  {
    CostsAdd(cfg.feeBps, cfg.slippageBps);
  }

  lemma CloseBooks(a: Account, timestamp: int, price: real, cfg: Config, reason: ExitReason, index: int)
    requires a.position.Some?
    ensures var b := Close(a, timestamp, price, cfg, reason, index);
            && Books(a, b, TradeOf(a.position.value, timestamp, price, cfg, reason, index))
            && Last(b) == TradeOf(a.position.value, timestamp, price, cfg, reason, index)
            && Settles(Last(b), a.position.value, price, timestamp, reason, index - a.position.value.entryIndex, cfg)
  {
    TradeSettles(a.position.value, price, timestamp, reason, index, cfg);
  }
}
