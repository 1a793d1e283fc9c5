/** The slow reference engine: every execution row, with the classifier rerun on the frame ending
    at it. */
module ReferenceEngine {
  import opened Ledger
  import opened Options
  import opened Sides

  /** An execution row with the last signal row of the frame it completes, that frame's last index
      and the ATR there. */
  datatype Row = Row(candle: Candle, signals: Signals, atr: real, baseIndex: int)

  function WatchStop(a: Account, row: Row, cfg: Config): Account {
    if a.position.Some? && StopHit(a.position.value, row.candle)
    then Close(a, row.candle.timestamp, a.position.value.stopPrice, cfg, RiskExit, a.position.value.entryIndex)
    else a
  }

  function WatchSignal(a: Account, row: Row, cfg: Config): Account {
    if a.position.Some? && EndsSide(a.position.value.side, row.signals)
    then Close(a, row.candle.timestamp, row.candle.close, cfg, LorentzExit, row.baseIndex)
    else a
  }

  function Entry(row: Row, equity: real, cfg: Config): Option<Position> {
    if row.signals.startLong && cfg.allowLong
    then TryOpen(Long, row.candle.close, row.atr, row.candle.timestamp, row.baseIndex, equity, cfg)
    else if row.signals.startShort && cfg.allowShort
    then TryOpen(Short, row.candle.close, row.atr, row.candle.timestamp, row.baseIndex, equity, cfg)
    else None
  }

  /** One row. Only a signal exit holds back a new entry on the same row; a stop exit does not. */
  function ReferenceRow(a: Account, row: Row, cfg: Config): Account {
    var stopped := WatchStop(a, row, cfg);
    var signalled := WatchSignal(stopped, row, cfg);
    var closedThisCandle := stopped.position.Some? && signalled.position.None?;
    if signalled.position.None? && (cfg.allowSameBarFlip || !closedThisCandle)
    then signalled.(position := Entry(row, signalled.equity, cfg))
    else signalled
  }

  function ReferenceRun(rows: seq<Row>, cfg: Config): Account {
    if rows == [] then Opening(cfg)
    else ReferenceRow(ReferenceRun(rows[..|rows| - 1], cfg), rows[|rows| - 1], cfg)
  }

  function ReferenceReport(rows: seq<Row>, baseLength: nat, cfg: Config): Account {
    var a := ReferenceRun(rows, cfg);
    if a.position.None? || rows == [] then a
    else
      var last := rows[|rows| - 1].candle;
      Close(a, last.timestamp, last.close, cfg, EndOfTest, baseLength - 1)
  }

  /** Sound, and every trade bounded, forced ones included. */
  ghost predicate AllBounded(a: Account, cfg: Config) {
    Sound(a, cfg) && forall k :: 0 <= k < |a.trades| ==> Bounded(a.trades[k], a.points[k], cfg)
  }

  ghost predicate WithinStopAt(a: Account, price: real) {
    a.position.Some? ==> NotBeyondStop(a.position.value, price)
  }

  lemma CloseKeepsAllBounded(a: Account, timestamp: int, price: real, cfg: Config, reason: ExitReason, index: int)
    requires AllBounded(a, cfg) && a.position.Some? && NotBeyondStop(a.position.value, price)
    ensures AllBounded(Close(a, timestamp, price, cfg, reason, index), cfg)
  {
    CloseKeepsSound(a, timestamp, price, cfg, reason, index);
    ExitIsBounded(a.position.value, price, a.equity, cfg, timestamp, reason, index);
  }

  /** A row leaves the account sound, and any position it leaves is within its stop at the close. */
  lemma RowKeeps(a: Account, row: Row, cfg: Config)
    requires AllBounded(a, cfg) && row.candle.Valid()
    ensures AllBounded(ReferenceRow(a, row, cfg), cfg)
    ensures WithinStopAt(ReferenceRow(a, row, cfg), row.candle.close)
  {
    var c := row.candle;
    var stopped := WatchStop(a, row, cfg);
    if a.position.Some? {
      if StopHit(a.position.value, c) {
        CloseKeepsAllBounded(a, c.timestamp, a.position.value.stopPrice, cfg, RiskExit, a.position.value.entryIndex);
      } else {
        UnhitCandleWithinStop(a.position.value, c, c.close);
        if EndsSide(a.position.value.side, row.signals) {
          CloseKeepsAllBounded(a, c.timestamp, c.close, cfg, LorentzExit, row.baseIndex);
        }
      }
    }
    var signalled := WatchSignal(stopped, row, cfg);
    OpenedIsSized(Long, c.close, row.atr, c.timestamp, row.baseIndex, signalled.equity, cfg);
    OpenedIsSized(Short, c.close, row.atr, c.timestamp, row.baseIndex, signalled.equity, cfg);
    if signalled.position.None? {
      OpeningKeepsSound(signalled, Entry(row, signalled.equity, cfg), cfg);
    }
  }

  lemma {:induction false} RunKeeps(rows: seq<Row>, cfg: Config)
    requires forall i :: 0 <= i < |rows| ==> rows[i].candle.Valid()
    ensures AllBounded(ReferenceRun(rows, cfg), cfg)
    ensures rows != [] ==> WithinStopAt(ReferenceRun(rows, cfg), rows[|rows| - 1].candle.close)
  {
    if rows != [] {
      RunKeeps(rows[..|rows| - 1], cfg);
      RowKeeps(ReferenceRun(rows[..|rows| - 1], cfg), rows[|rows| - 1], cfg);
    }
  }

  /** On valid candles every trade of the reference engine, the forced last one included, loses at
      most the risk budget of the equity before it. */
  lemma ReferenceReportSound(rows: seq<Row>, baseLength: nat, cfg: Config)
    requires forall i :: 0 <= i < |rows| ==> rows[i].candle.Valid()
    ensures var r := ReferenceReport(rows, baseLength, cfg);
            && AllBounded(r, cfg)
            && r.equity == cfg.risk.initialEquity + NetSum(r.trades)
            && (rows != [] ==> r.position.None?)
  {
    RunKeeps(rows, cfg);
    var a := ReferenceRun(rows, cfg);
    if a.position.Some? && rows != [] {
      var last := rows[|rows| - 1].candle;
      CloseKeepsAllBounded(a, last.timestamp, last.close, cfg, EndOfTest, baseLength - 1);
    }
    Conservation(ReferenceReport(rows, baseLength, cfg), cfg);
  }

  /** The loss bound over a whole reference run. */
  lemma ReferenceEquityFloor(rows: seq<Row>, baseLength: nat, cfg: Config, n: nat)
    requires forall i :: 0 <= i < |rows| ==> rows[i].candle.Valid()
    requires cfg.CostRate() >= 0.0 && cfg.fundingRatePerBar == 0.0 && SurvivingShare(cfg) > 0.0
    requires n <= |ReferenceReport(rows, baseLength, cfg).trades|
    ensures |ReferenceReport(rows, baseLength, cfg).points| > n
    ensures ReferenceReport(rows, baseLength, cfg).points[n] >= cfg.risk.initialEquity * Power(SurvivingShare(cfg), n)
  {
    ReferenceReportSound(rows, baseLength, cfg);
    EquityFloor(ReferenceReport(rows, baseLength, cfg), cfg, n);
  }

  /** `_run_subcandle_reference`. */
  method RunReference(rows: seq<Row>, baseLength: nat, cfg: Config)
    returns (equity: real, points: seq<real>, trades: seq<Trade>, position: Option<Position>)
    ensures Account(equity, points, trades, position) == ReferenceReport(rows, baseLength, cfg)
  {
    equity := cfg.risk.initialEquity;
    points, trades, position := [equity], [], None;
    for i := 0 to |rows|
      invariant Account(equity, points, trades, position) == ReferenceRun(rows[..i], cfg)
    {
      assert rows[..i + 1][..i] == rows[..i];
      var row := rows[i];
      var c := row.candle;
      if position.Some? && StopHit(position.value, c) {
        var trade := TradeOf(position.value, c.timestamp, position.value.stopPrice, cfg, RiskExit,
            position.value.entryIndex);
        equity := equity + trade.net;
        trades, points, position := trades + [trade], points + [equity], None;
      }
      var closedThisCandle := false;
      if position.Some? && EndsSide(position.value.side, row.signals) {
        var trade := TradeOf(position.value, c.timestamp, c.close, cfg, LorentzExit, row.baseIndex);
        equity := equity + trade.net;
        trades, points, position := trades + [trade], points + [equity], None;
        closedThisCandle := true;
      }
      if position.None? && (cfg.allowSameBarFlip || !closedThisCandle) {
        if row.signals.startLong && cfg.allowLong {
          position := TryOpen(Long, c.close, row.atr, c.timestamp, row.baseIndex, equity, cfg);
        } else if row.signals.startShort && cfg.allowShort {
          position := TryOpen(Short, c.close, row.atr, c.timestamp, row.baseIndex, equity, cfg);
        }
      }
    }
    assert rows[..|rows|] == rows;
    if position.Some? && rows != [] {
      var last := rows[|rows| - 1].candle;
      var trade := TradeOf(position.value, last.timestamp, last.close, cfg, EndOfTest, baseLength - 1);
      equity := equity + trade.net;
      trades, points, position := trades + [trade], points + [equity], None;
    }
  }
}
