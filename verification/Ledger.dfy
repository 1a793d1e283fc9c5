/** Positions, trades and the equity account that every backtest engine keeps. */
module Ledger {
  import opened Options
  import opened Reals
  import opened Risk
  import opened Sides

  datatype Candle = Candle(timestamp: int, open: real, high: real, low: real, close: real) {
    predicate Valid() {
      low <= open <= high && low <= close <= high
    }
  }

  datatype Signals = Signals(startLong: bool, startShort: bool, endLong: bool, endShort: bool)

  datatype ExitReason = RiskExit | LorentzExit | EndOfTest

  datatype Position = Position(side: Side, entryIndex: int, entryTimestamp: int, entryPrice: real,
                               quantity: real, stopPrice: real)

  datatype Trade = Trade(side: Side, entryTimestamp: int, exitTimestamp: int, entryPrice: real, exitPrice: real,
                         quantity: real, gross: real, net: real, reason: ExitReason, barsHeld: int)

  datatype Config = Config(risk: RiskConfig, allowLong: bool, allowShort: bool, feeBps: real, slippageBps: real,
                           fundingRatePerBar: real, allowSameBarFlip: bool) {
    function CostRate(): real { feeBps / 10_000.0 + slippageBps / 10_000.0 }
  }

  /** Equity, its curve, the closed trades, and the open position if any. */
  datatype Account = Account(equity: real, points: seq<real>, trades: seq<Trade>, position: Option<Position>)

  function Opening(cfg: Config): Account {
    Account(cfg.risk.initialEquity, [cfg.risk.initialEquity], [], None)
  }

  /** `_risk_exit_hit`. */
  predicate StopHit(p: Position, c: Candle) {
    if p.side == Long then c.low <= p.stopPrice else c.high >= p.stopPrice
  }

  predicate EndsSide(side: Side, s: Signals) {
    if side == Long then s.endLong else s.endShort
  }

  /** `_directional_fill_price` for opening and closing: the worse of open and close. */
  function OpenFill(side: Side, c: Candle): real {
    if side == Long then Max(c.open, c.close) else Min(c.open, c.close)
  }

  function CloseFill(side: Side, c: Candle): real {
    if side == Long then Min(c.open, c.close) else Max(c.open, c.close)
  }

  function Gross(p: Position, exitPrice: real): real {
    var signed := if p.side == Long then exitPrice - p.entryPrice else p.entryPrice - exitPrice;
    signed * p.quantity
  }

  /** `_close_trade`. */
  function TradeOf(p: Position, timestamp: int, exitPrice: real, cfg: Config, reason: ExitReason, index: int): Trade {
    var gross := Gross(p, exitPrice);
    var notional := p.entryPrice * p.quantity;
    var barsHeld := if index - p.entryIndex > 1 then index - p.entryIndex else 1;
    var net := gross - notional * cfg.CostRate() - notional * cfg.fundingRatePerBar * barsHeld as real;
    Trade(p.side, p.entryTimestamp, timestamp, p.entryPrice, exitPrice, p.quantity, gross, net, reason, barsHeld)
  }

  /** Closing the open position books the trade and moves equity by its net result. */
  function Close(a: Account, timestamp: int, price: real, cfg: Config, reason: ExitReason, index: int): Account
    requires a.position.Some?
  {
    var trade := TradeOf(a.position.value, timestamp, price, cfg, reason, index);
    var equity := a.equity + trade.net;
    Account(equity, a.points + [equity], a.trades + [trade], None)
  }

  /** A position at the given fill, sized on the account's equity; none when the size is zero. */
  function TryOpen(side: Side, fill: real, atr: real, timestamp: int, index: int, equity: real,
      cfg: Config): Option<Position> {
    var stop := InitialStop(atr, side, fill, cfg.risk);
    var quantity := PositionSize(equity, fill, stop, cfg.risk);
    if quantity > 0.0 then Some(Position(side, index, timestamp, fill, quantity, stop)) else None
  }

  /** A position's risk down to its stop, and its notional, fit the equity it was opened on. */
  ghost predicate Sized(p: Position, equity: real, cfg: Config) {
    && p.quantity > 0.0
    && p.quantity * Abs(p.entryPrice - p.stopPrice) <= equity * cfg.risk.riskPerTrade
    && p.entryPrice * p.quantity <= equity * cfg.risk.leverageCap
  }

  /** A trade lost at most the risk budget of the equity before it, on a notional under the cap. */
  ghost predicate Bounded(t: Trade, equityBefore: real, cfg: Config) {
    && t.gross >= -(equityBefore * cfg.risk.riskPerTrade)
    && t.entryPrice * t.quantity <= equityBefore * cfg.risk.leverageCap
  }

  /** The trade's results follow from its prices: gross on the move, net after costs on the notional. */
  ghost predicate Costed(t: Trade, cfg: Config) {
    var notional := t.entryPrice * t.quantity;
    && t.gross == (if t.side == Long then t.exitPrice - t.entryPrice else t.entryPrice - t.exitPrice) * t.quantity
    && t.net == t.gross - notional * cfg.CostRate() - notional * cfg.fundingRatePerBar * t.barsHeld as real
    && t.barsHeld >= 1
  }

  ghost predicate Booked(a: Account, k: nat)
    requires k < |a.trades| && |a.points| == |a.trades| + 1
  {
    a.points[k + 1] == a.points[k] + a.trades[k].net
  }

  /** What every engine keeps: the curve starts at the initial equity, moves only by booked trades,
      and ends at the equity; the open position is sized on that equity; and each trade except an end
      of test one is bounded by the equity before it. */
  ghost predicate Sound(a: Account, cfg: Config) {
    && |a.points| == |a.trades| + 1
    && a.points[0] == cfg.risk.initialEquity
    && a.equity == a.points[|a.trades|]
    && (forall k :: 0 <= k < |a.trades| ==> Booked(a, k))
    && (forall k :: 0 <= k < |a.trades| ==> Costed(a.trades[k], cfg))
    && (a.position.Some? ==> Sized(a.position.value, a.equity, cfg))
    && (forall k :: 0 <= k < |a.trades| && a.trades[k].reason != EndOfTest ==> Bounded(a.trades[k], a.points[k], cfg))
  }

  /** A price that loses no more per unit than the stop would. */
  predicate NotBeyondStop(p: Position, price: real) {
    (if p.side == Long then price - p.entryPrice else p.entryPrice - price) >= -Abs(p.entryPrice - p.stopPrice)
  }

  lemma ExitIsBounded(p: Position, price: real, equity: real, cfg: Config, timestamp: int, reason: ExitReason,
      index: int)
    requires Sized(p, equity, cfg) && NotBeyondStop(p, price)
    ensures Bounded(TradeOf(p, timestamp, price, cfg, reason, index), equity, cfg)
  {
    var signed := if p.side == Long then price - p.entryPrice else p.entryPrice - price;
    var distance := Abs(p.entryPrice - p.stopPrice);
    ScaledOrder(-distance, signed, p.quantity);
    assert -distance * p.quantity == -(p.quantity * distance);
  }

  /** Without a stop hit, no price the candle traded at is beyond the stop. */
  lemma UnhitCandleWithinStop(p: Position, c: Candle, price: real)
    requires !StopHit(p, c) && c.low <= price <= c.high
    ensures NotBeyondStop(p, price)
  {
  }

  lemma CloseKeepsSound(a: Account, timestamp: int, price: real, cfg: Config, reason: ExitReason, index: int)
    requires Sound(a, cfg) && a.position.Some?
    requires reason != EndOfTest ==> NotBeyondStop(a.position.value, price)
    ensures Sound(Close(a, timestamp, price, cfg, reason, index), cfg)
  {
    var b := Close(a, timestamp, price, cfg, reason, index);
    if reason != EndOfTest {
      ExitIsBounded(a.position.value, price, a.equity, cfg, timestamp, reason, index);
    }
    forall k | 0 <= k < |b.trades| ensures Booked(b, k) {
      if k < |a.trades| { assert Booked(a, k); }
    }
  }

  lemma OpeningKeepsSound(a: Account, p: Option<Position>, cfg: Config)
    requires Sound(a, cfg) && (p.Some? ==> Sized(p.value, a.equity, cfg))
    ensures Sound(a.(position := p), cfg)
  {
    var b := a.(position := p);
    forall k | 0 <= k < |b.trades| ensures Booked(b, k) {
      assert Booked(a, k);
    }
  }

  lemma OpenedIsSized(side: Side, fill: real, atr: real, timestamp: int, index: int, equity: real, cfg: Config)
    ensures var p := TryOpen(side, fill, atr, timestamp, index, equity, cfg);
            p.Some? ==> Sized(p.value, equity, cfg)
  {
    PositionSizeWithin(equity, fill, InitialStop(atr, side, fill, cfg.risk), cfg.risk);
  }

  function NetSum(trades: seq<Trade>): real {
    if trades == [] then 0.0 else NetSum(trades[..|trades| - 1]) + trades[|trades| - 1].net
  }

  lemma {:induction false} CurveIsNetSum(a: Account, cfg: Config, n: nat)
    requires Sound(a, cfg) && n <= |a.trades|
    ensures a.points[n] == cfg.risk.initialEquity + NetSum(a.trades[..n])
  {
    if n > 0 {
      CurveIsNetSum(a, cfg, n - 1);
      assert a.trades[..n][..n - 1] == a.trades[..n - 1];
      assert Booked(a, n - 1);
    }
  }

  /** Conservation: equity is the initial equity plus the net result of every trade. */
  lemma Conservation(a: Account, cfg: Config)
    requires Sound(a, cfg)
    ensures a.equity == cfg.risk.initialEquity + NetSum(a.trades)
  {
    CurveIsNetSum(a, cfg, |a.trades|);
    assert a.trades[..|a.trades|] == a.trades;
  }

  function Power(b: real, n: nat): real {
    if n == 0 then 1.0 else Power(b, n - 1) * b
  }

  /** The share of equity that must survive a trade: all but the risk budget and the costs on the
      largest notional. */
  function SurvivingShare(cfg: Config): real {
    1.0 - cfg.risk.riskPerTrade - cfg.risk.leverageCap * cfg.CostRate()
  }

  lemma BoundedNet(t: Trade, equity: real, cfg: Config)
    requires Costed(t, cfg) && Bounded(t, equity, cfg)
    requires cfg.CostRate() >= 0.0 && cfg.fundingRatePerBar == 0.0
    ensures equity + t.net >= equity * SurvivingShare(cfg)
  {
    var f, notional := cfg.CostRate(), t.entryPrice * t.quantity;
    assert notional * cfg.fundingRatePerBar * t.barsHeld as real == 0.0;
    ScaledOrder(notional, equity * cfg.risk.leverageCap, f);
    Expand(equity, cfg.risk.riskPerTrade, cfg.risk.leverageCap, f);
  }

  lemma Expand(e: real, r: real, l: real, f: real)
    ensures e * (1.0 - r - l * f) == e - e * r - (e * l) * f
  {
  }

  /** The floor on equity over a whole run: with no funding, after n bounded trades at least the n-th
      power of the surviving share of the initial equity is left. */
  lemma {:induction false} EquityFloor(a: Account, cfg: Config, n: nat)
    requires Sound(a, cfg) && n <= |a.trades|
    requires forall k :: 0 <= k < n ==> Bounded(a.trades[k], a.points[k], cfg)
    requires cfg.CostRate() >= 0.0 && cfg.fundingRatePerBar == 0.0 && SurvivingShare(cfg) > 0.0
    ensures a.points[n] >= cfg.risk.initialEquity * Power(SurvivingShare(cfg), n)
  {
    if n > 0 {
      var b := SurvivingShare(cfg);
      EquityFloor(a, cfg, n - 1);
      assert Booked(a, n - 1) && Costed(a.trades[n - 1], cfg);
      BoundedNet(a.trades[n - 1], a.points[n - 1], cfg);
      ScaledOrder(cfg.risk.initialEquity * Power(b, n - 1), a.points[n - 1], b);
      Regroup(cfg.risk.initialEquity, Power(b, n - 1), b);
    }
  }

  lemma Regroup(e: real, p: real, b: real)
    ensures (e * p) * b == e * (p * b)
  {
  }
}
