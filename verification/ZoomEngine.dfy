/** The zoom engine: base bars, looked into through their child candles where a signal asks for it. */
module ZoomEngine {
  import opened Ledger
  import opened Options
  import opened Sides

  /** A child candle with what the classifier says, and the ATR, on the partial bar it completes. */
  datatype Child = Child(candle: Candle, signals: Signals, atr: real)

  /** A base bar with its signal row, ATR, and the children selected for it (possibly none). */
  datatype Bar = Bar(candle: Candle, signals: Signals, atr: real, children: seq<Child>) {
    predicate NeedsZoom() {
      signals.startLong || signals.startShort || signals.endLong || signals.endShort
    }

    predicate Valid() {
      candle.Valid() && forall i :: 0 <= i < |children| ==> children[i].candle.Valid()
    }
  }

  predicate ExitsAt(p: Position, c: Child, zoom: bool) {
    StopHit(p, c.candle) || (zoom && EndsSide(p.side, c.signals))
  }

  /** The first child, from i on, at which the position is left; the length if none. */
  function FirstExit(p: Position, children: seq<Child>, i: nat, zoom: bool): (k: nat)
    requires i <= |children|
    ensures i <= k <= |children|
    ensures k < |children| ==> ExitsAt(p, children[k], zoom)
    ensures forall j :: i <= j < k ==> !ExitsAt(p, children[j], zoom)
    decreases |children| - i
  {
    if i == |children| || ExitsAt(p, children[i], zoom) then i else FirstExit(p, children, i + 1, zoom)
  }

  /** Leaving at a child: at the stop when it was hit, otherwise at the worse of open and close. */
  function ExitAtChild(a: Account, c: Child, index: int, cfg: Config): Account
    requires a.position.Some?
  {
    var p := a.position.value;
    if StopHit(p, c.candle) then Close(a, c.candle.timestamp, p.stopPrice, cfg, RiskExit, index)
    else Close(a, c.candle.timestamp, CloseFill(p.side, c.candle), cfg, LorentzExit, index)
  }

  /** Watches the children from i on. */
  function WatchChildren(a: Account, bar: Bar, i: nat, index: int, cfg: Config): Account
    requires a.position.Some? && i <= |bar.children|
  {
    var k := FirstExit(a.position.value, bar.children, i, bar.NeedsZoom());
    if k < |bar.children| then ExitAtChild(a, bar.children[k], index, cfg) else a
  }

  /** The base bar itself, for a position its children did not close. */
  function WatchBar(a: Account, bar: Bar, index: int, cfg: Config): Account
    requires a.position.Some?
  {
    var p := a.position.value;
    if StopHit(p, bar.candle) then Close(a, bar.candle.timestamp, p.stopPrice, cfg, RiskExit, index)
    else if EndsSide(p.side, bar.signals) then Close(a, bar.candle.timestamp, bar.candle.close, cfg, LorentzExit, index)
    else a
  }

  function ManageOpen(a: Account, bar: Bar, index: int, cfg: Config): Account {
    if a.position.None? then a
    else
      var watched := WatchChildren(a, bar, 0, index, cfg);
      if watched.position.None? then watched else WatchBar(watched, bar, index, cfg)
  }

  /** A child that starts both sides falls through to short when no long can be sized. */
  function ChildEntry(c: Child, index: int, equity: real, cfg: Config): Option<Position> {
    var long :=
      if c.signals.startLong && cfg.allowLong
      then TryOpen(Long, OpenFill(Long, c.candle), c.atr, c.candle.timestamp, index, equity, cfg) else None;
    if long.Some? then long
    else if c.signals.startShort && cfg.allowShort
    then TryOpen(Short, OpenFill(Short, c.candle), c.atr, c.candle.timestamp, index, equity, cfg)
    else None
  }

  /** A base bar that starts both sides only tries long. */
  function BarEntry(bar: Bar, index: int, equity: real, cfg: Config): Option<Position> {
    if bar.signals.startLong && cfg.allowLong
    then TryOpen(Long, bar.candle.close, bar.atr, bar.candle.timestamp, index, equity, cfg)
    else if bar.signals.startShort && cfg.allowShort
    then TryOpen(Short, bar.candle.close, bar.atr, bar.candle.timestamp, index, equity, cfg)
    else None
  }

  function FirstEntry(children: seq<Child>, i: nat, index: int, equity: real, cfg: Config): (k: nat)
    requires i <= |children|
    ensures i <= k <= |children|
    ensures k < |children| ==> ChildEntry(children[k], index, equity, cfg).Some?
    ensures forall j :: i <= j < k ==> ChildEntry(children[j], index, equity, cfg).None?
    decreases |children| - i
  {
    if i == |children| || ChildEntry(children[i], index, equity, cfg).Some? then i
    else FirstEntry(children, i + 1, index, equity, cfg)
  }

  /** Entering, and for an entry at a child, watching the children after it. */
  function EnterAndWatch(a: Account, bar: Bar, index: int, cfg: Config): Account
    requires a.position.None?
  {
    var k := if bar.NeedsZoom() then FirstEntry(bar.children, 0, index, a.equity, cfg) else |bar.children|;
    if k < |bar.children| then
      var entered := a.(position := ChildEntry(bar.children[k], index, a.equity, cfg));
      WatchChildren(entered, bar, k + 1, index, cfg)
    else a.(position := BarEntry(bar, index, a.equity, cfg))
  }

  /** One base bar. */
  function ZoomBar(a: Account, bar: Bar, index: int, cfg: Config): Account {
    var managed := ManageOpen(a, bar, index, cfg);
    var closedThisBar := a.position.Some? && managed.position.None?;
    if managed.position.None? && (cfg.allowSameBarFlip || !closedThisBar)
    then EnterAndWatch(managed, bar, index, cfg)
    else managed
  }

  function ZoomRun(bars: seq<Bar>, cfg: Config): Account {
    if bars == [] then Opening(cfg)
    else ZoomBar(ZoomRun(bars[..|bars| - 1], cfg), bars[|bars| - 1], |bars| - 1, cfg)
  }

  /** A position left open is closed at the last bar's close. */
  function ZoomReport(bars: seq<Bar>, cfg: Config): Account {
    var a := ZoomRun(bars, cfg);
    if a.position.None? || bars == [] then a
    else
      var last := bars[|bars| - 1].candle;
      Close(a, last.timestamp, last.close, cfg, EndOfTest, |bars| - 1)
  }

  ghost predicate NoForcedTrade(a: Account) {
    forall k :: 0 <= k < |a.trades| ==> a.trades[k].reason != EndOfTest
  }

  lemma WatchChildrenKeeps(a: Account, bar: Bar, i: nat, index: int, cfg: Config)
    requires Sound(a, cfg) && NoForcedTrade(a) && a.position.Some? && i <= |bar.children| && bar.Valid()
    ensures Sound(WatchChildren(a, bar, i, index, cfg), cfg) && NoForcedTrade(WatchChildren(a, bar, i, index, cfg))
  {
    var p := a.position.value;
    var k := FirstExit(p, bar.children, i, bar.NeedsZoom());
    if k < |bar.children| {
      var c := bar.children[k].candle;
      if StopHit(p, c) {
        CloseKeepsSound(a, c.timestamp, p.stopPrice, cfg, RiskExit, index);
      } else {
        UnhitCandleWithinStop(p, c, CloseFill(p.side, c));
        CloseKeepsSound(a, c.timestamp, CloseFill(p.side, c), cfg, LorentzExit, index);
      }
    }
  }

  lemma WatchBarKeeps(a: Account, bar: Bar, index: int, cfg: Config)
    requires Sound(a, cfg) && NoForcedTrade(a) && a.position.Some? && bar.Valid()
    ensures Sound(WatchBar(a, bar, index, cfg), cfg) && NoForcedTrade(WatchBar(a, bar, index, cfg))
  {
    var p, c := a.position.value, bar.candle;
    if StopHit(p, c) {
      CloseKeepsSound(a, c.timestamp, p.stopPrice, cfg, RiskExit, index);
    } else if EndsSide(p.side, bar.signals) {
      UnhitCandleWithinStop(p, c, c.close);
      CloseKeepsSound(a, c.timestamp, c.close, cfg, LorentzExit, index);
    }
  }

  lemma ChildEntrySized(c: Child, index: int, equity: real, cfg: Config)
    ensures ChildEntry(c, index, equity, cfg).Some? ==> Sized(ChildEntry(c, index, equity, cfg).value, equity, cfg)
  {
    OpenedIsSized(Long, OpenFill(Long, c.candle), c.atr, c.candle.timestamp, index, equity, cfg);
    OpenedIsSized(Short, OpenFill(Short, c.candle), c.atr, c.candle.timestamp, index, equity, cfg);
  }

  lemma EnterAndWatchKeeps(a: Account, bar: Bar, index: int, cfg: Config)
    requires Sound(a, cfg) && NoForcedTrade(a) && a.position.None? && bar.Valid()
    ensures Sound(EnterAndWatch(a, bar, index, cfg), cfg) && NoForcedTrade(EnterAndWatch(a, bar, index, cfg))
  {
    var k := if bar.NeedsZoom() then FirstEntry(bar.children, 0, index, a.equity, cfg) else |bar.children|;
    if k < |bar.children| {
      ChildEntrySized(bar.children[k], index, a.equity, cfg);
      OpeningKeepsSound(a, ChildEntry(bar.children[k], index, a.equity, cfg), cfg);
      WatchChildrenKeeps(a.(position := ChildEntry(bar.children[k], index, a.equity, cfg)), bar, k + 1, index, cfg);
    } else {
      OpenedIsSized(Long, bar.candle.close, bar.atr, bar.candle.timestamp, index, a.equity, cfg);
      OpenedIsSized(Short, bar.candle.close, bar.atr, bar.candle.timestamp, index, a.equity, cfg);
      OpeningKeepsSound(a, BarEntry(bar, index, a.equity, cfg), cfg);
    }
  }

  lemma ZoomBarKeeps(a: Account, bar: Bar, index: int, cfg: Config)
    requires Sound(a, cfg) && NoForcedTrade(a) && bar.Valid()
    ensures Sound(ZoomBar(a, bar, index, cfg), cfg) && NoForcedTrade(ZoomBar(a, bar, index, cfg))
  {
    if a.position.Some? {
      WatchChildrenKeeps(a, bar, 0, index, cfg);
      var watched := WatchChildren(a, bar, 0, index, cfg);
      if watched.position.Some? {
        WatchBarKeeps(watched, bar, index, cfg);
      }
    }
    var managed := ManageOpen(a, bar, index, cfg);
    if managed.position.None? {
      EnterAndWatchKeeps(managed, bar, index, cfg);
    }
  }

  lemma {:induction false} ZoomRunKeeps(bars: seq<Bar>, cfg: Config)
    requires forall i :: 0 <= i < |bars| ==> bars[i].Valid()
    ensures Sound(ZoomRun(bars, cfg), cfg) && NoForcedTrade(ZoomRun(bars, cfg))
  {
    if bars != [] {
      var before := bars[..|bars| - 1];
      ZoomRunKeeps(before, cfg);
      ZoomBarKeeps(ZoomRun(before, cfg), bars[|bars| - 1], |bars| - 1, cfg);
    }
  }

  /** On valid candles, a whole zoom run keeps the account sound, and only its very last trade can
      have been forced by the end of the test. */
  lemma ZoomReportSound(bars: seq<Bar>, cfg: Config)
    requires forall i :: 0 <= i < |bars| ==> bars[i].Valid()
    ensures var r := ZoomReport(bars, cfg);
            && Sound(r, cfg)
            && r.equity == cfg.risk.initialEquity + NetSum(r.trades)
            && (forall k :: 0 <= k < |r.trades| - 1 ==> r.trades[k].reason != EndOfTest)
            && (bars != [] ==> r.position.None?)
  {
    ZoomRunKeeps(bars, cfg);
    var a := ZoomRun(bars, cfg);
    if a.position.Some? && bars != [] {
      var last := bars[|bars| - 1].candle;
      CloseKeepsSound(a, last.timestamp, last.close, cfg, EndOfTest, |bars| - 1);
    }
    Conservation(ZoomReport(bars, cfg), cfg);
  }

  /** The bar opens a position at one of its children. */
  predicate EntersAtChild(a: Account, bar: Bar, index: int, cfg: Config) {
    var managed := ManageOpen(a, bar, index, cfg);
    && managed.position.None? && bar.NeedsZoom()
    && FirstEntry(bar.children, 0, index, managed.equity, cfg) < |bar.children|
  }

  /** A position a bar leaves open is not beyond its stop at the bar's close, unless it was opened at a child: the
      children after that are watched, but the bar's own close need not be the last child's. */
  lemma OpenAtCloseWithinStop(a: Account, bar: Bar, index: int, cfg: Config)
    requires bar.Valid() && ZoomBar(a, bar, index, cfg).position.Some? && !EntersAtChild(a, bar, index, cfg)
    ensures NotBeyondStop(ZoomBar(a, bar, index, cfg).position.value, bar.candle.close)
  {
    var managed := ManageOpen(a, bar, index, cfg);
    if managed.position.Some? {
      UnhitCandleWithinStop(managed.position.value, bar.candle, bar.candle.close);
    }
  }

  /** Closing books one trade, which is bounded when its price is not beyond the stop. */
  lemma CloseIsBounded(a: Account, timestamp: int, price: real, cfg: Config, reason: ExitReason, index: int)
    requires Sound(a, cfg) && a.position.Some?
    ensures var k, r := |a.trades|, Close(a, timestamp, price, cfg, reason, index);
            && |r.trades| == k + 1 && |r.points| == k + 2 && r.trades[k].reason == reason
            && (NotBeyondStop(a.position.value, price) ==> Bounded(r.trades[k], r.points[k], cfg))
  {
    if NotBeyondStop(a.position.value, price) {
      ExitIsBounded(a.position.value, price, a.equity, cfg, timestamp, reason, index);
    }
  }

  /** The trade forced by the end of the test is bounded like any other, unless the last bar opened it at a child
      and closed beyond its stop. */
  lemma ForcedTradeBounded(bars: seq<Bar>, cfg: Config)
    requires (forall i :: 0 <= i < |bars| ==> bars[i].Valid()) && bars != [] && ZoomRun(bars, cfg).position.Some?
    ensures var n, r := |bars| - 1, ZoomReport(bars, cfg);
            var k := |r.trades| - 1;
            k >= 0 && |r.points| == k + 2 && r.trades[k].reason == EndOfTest
            && (!EntersAtChild(ZoomRun(bars[..n], cfg), bars[n], n, cfg)
                || NotBeyondStop(ZoomRun(bars, cfg).position.value, bars[n].candle.close)
                ==> Bounded(r.trades[k], r.points[k], cfg))
  {
    var n := |bars| - 1;
    ZoomRunKeeps(bars, cfg);
    if !EntersAtChild(ZoomRun(bars[..n], cfg), bars[n], n, cfg) {
      OpenAtCloseWithinStop(ZoomRun(bars[..n], cfg), bars[n], n, cfg);
    }
    CloseIsBounded(ZoomRun(bars, cfg), bars[n].candle.timestamp, bars[n].candle.close, cfg, EndOfTest, n);
  }

  /** The loss bound over a whole zoom run. */
  lemma ZoomEquityFloor(bars: seq<Bar>, cfg: Config, n: nat)
    requires forall i :: 0 <= i < |bars| ==> bars[i].Valid()
    requires cfg.CostRate() >= 0.0 && cfg.fundingRatePerBar == 0.0 && SurvivingShare(cfg) > 0.0
    requires n <= |ZoomReport(bars, cfg).trades|
    requires forall k :: 0 <= k < n ==> ZoomReport(bars, cfg).trades[k].reason != EndOfTest
    ensures |ZoomReport(bars, cfg).points| > n
    ensures ZoomReport(bars, cfg).points[n] >= cfg.risk.initialEquity * Power(SurvivingShare(cfg), n)
  {
    ZoomReportSound(bars, cfg);
    EquityFloor(ZoomReport(bars, cfg), cfg, n);
  }

  /** Stop discipline: a position held through a bar was hit neither by the bar nor by any of its children; one that
      the bar opened at a child is the entry found at the first child that yields one, and no later child hit it; and
      otherwise it is the entry at the bar's close. */
  lemma HeldMeansUnhit(a: Account, bar: Bar, index: int, cfg: Config)
    requires ZoomBar(a, bar, index, cfg).position.Some?
    ensures var after, managed := ZoomBar(a, bar, index, cfg), ManageOpen(a, bar, index, cfg);
            var p := after.position.value;
            if managed.position.Some? then
              && after == managed == a && !StopHit(p, bar.candle)
              && forall j :: 0 <= j < |bar.children| ==> !StopHit(p, bar.children[j].candle)
            else if EntersAtChild(a, bar, index, cfg) then
              var k := FirstEntry(bar.children, 0, index, managed.equity, cfg);
              && Some(p) == ChildEntry(bar.children[k], index, managed.equity, cfg)
              && forall j :: k < j < |bar.children| ==> !StopHit(p, bar.children[j].candle)
            else
              Some(p) == BarEntry(bar, index, managed.equity, cfg)
  {
    var managed := ManageOpen(a, bar, index, cfg);
    if EntersAtChild(a, bar, index, cfg) {
      var k := FirstEntry(bar.children, 0, index, managed.equity, cfg);
      var entered := managed.(position := ChildEntry(bar.children[k], index, managed.equity, cfg));
      var j := FirstExit(entered.position.value, bar.children, k + 1, bar.NeedsZoom());
      assert j == |bar.children|;
    }
  }

  /** `_run_zoom_execution`. */
  method RunZoom(bars: seq<Bar>, cfg: Config)
    returns (equity: real, points: seq<real>, trades: seq<Trade>, position: Option<Position>)
    ensures Account(equity, points, trades, position) == ZoomReport(bars, cfg)
  {
    equity := cfg.risk.initialEquity;
    points, trades, position := [equity], [], None;
    for index := 0 to |bars|
      invariant Account(equity, points, trades, position) == ZoomRun(bars[..index], cfg)
    {
      assert bars[..index + 1][..index] == bars[..index];
      equity, points, trades, position := RunBar(equity, points, trades, position, bars[index], index, cfg);
    }
    assert bars[..|bars|] == bars;
    if position.Some? && bars != [] {
      var last := bars[|bars| - 1].candle;
      equity, points, trades := Book(equity, points, trades, position.value, last.timestamp, last.close, cfg,
        EndOfTest, |bars| - 1);
      position := None;
    }
  }

  /** The loop body: manage the open position, enter, and watch what was entered. */
  method RunBar(equity0: real, points0: seq<real>, trades0: seq<Trade>, position0: Option<Position>,
                bar: Bar, index: int, cfg: Config)
    returns (equity: real, points: seq<real>, trades: seq<Trade>, position: Option<Position>)
    ensures Account(equity, points, trades, position) ==
            ZoomBar(Account(equity0, points0, trades0, position0), bar, index, cfg)
  {
    equity, points, trades, position := equity0, points0, trades0, position0;
    var closedThisBar := false;
    if position.Some? {
      equity, points, trades, position := Watch(equity, points, trades, position.value, bar, 0, index, cfg);
      closedThisBar := position.None?;
      if position.Some? && StopHit(position.value, bar.candle) {
        equity, points, trades := Book(equity, points, trades, position.value, bar.candle.timestamp,
          position.value.stopPrice, cfg, RiskExit, index);
        position, closedThisBar := None, true;
      } else if position.Some? && EndsSide(position.value.side, bar.signals) {
        equity, points, trades := Book(equity, points, trades, position.value, bar.candle.timestamp, bar.candle.close,
          cfg, LorentzExit, index);
        position, closedThisBar := None, true;
      }
    }
    var entryChild := None;
    if position.None? && (cfg.allowSameBarFlip || !closedThisBar) {
      if bar.NeedsZoom() {
        position, entryChild := EnterAtChild(bar.children, index, equity, cfg);
      }
      if position.None? {
        position := BarEntry(bar, index, equity, cfg);
      }
    }
    if position.Some? && entryChild.Some? {
      equity, points, trades, position := Watch(equity, points, trades, position.value, bar,
        entryChild.value + 1, index, cfg);
    }
  }

  method Book(equity: real, points: seq<real>, trades: seq<Trade>, p: Position, timestamp: int, price: real,
              cfg: Config, reason: ExitReason, index: int)
    returns (equity': real, points': seq<real>, trades': seq<Trade>)
    ensures Account(equity', points', trades', None) ==
            Close(Account(equity, points, trades, Some(p)), timestamp, price, cfg, reason, index)
  {
    var trade := TradeOf(p, timestamp, price, cfg, reason, index);
    equity' := equity + trade.net;
    trades' := trades + [trade];
    points' := points + [equity'];
  }

  method Watch(equity: real, points: seq<real>, trades: seq<Trade>, p: Position, bar: Bar, from: nat,
               index: int, cfg: Config)
    returns (equity': real, points': seq<real>, trades': seq<Trade>, position': Option<Position>)
    requires from <= |bar.children|
    ensures Account(equity', points', trades', position') ==
            WatchChildren(Account(equity, points, trades, Some(p)), bar, from, index, cfg)
  {
    equity', points', trades', position' := equity, points, trades, Some(p);
    var zoom := bar.NeedsZoom();
    var i := from;
    while i < |bar.children|
      invariant from <= i <= |bar.children|
      invariant FirstExit(p, bar.children, from, zoom) == FirstExit(p, bar.children, i, zoom)
    {
      var child := bar.children[i];
      if StopHit(p, child.candle) {
        equity', points', trades' := Book(equity, points, trades, p, child.candle.timestamp, p.stopPrice, cfg,
          RiskExit, index);
        position' := None;
        return;
      }
      if zoom && EndsSide(p.side, child.signals) {
        equity', points', trades' := Book(equity, points, trades, p, child.candle.timestamp,
          CloseFill(p.side, child.candle), cfg, LorentzExit, index);
        position' := None;
        return;
      }
      i := i + 1;
    }
  }

  method EnterAtChild(children: seq<Child>, index: int, equity: real, cfg: Config)
    returns (position: Option<Position>, entryChild: Option<nat>)
    ensures var k := FirstEntry(children, 0, index, equity, cfg);
            if k < |children|
            then entryChild == Some(k) && position == ChildEntry(children[k], index, equity, cfg)
            else entryChild == None && position == None
  {
    position, entryChild := None, None;
    var i := 0;
    while i < |children|
      invariant 0 <= i <= |children|
      invariant FirstEntry(children, 0, index, equity, cfg) == FirstEntry(children, i, index, equity, cfg)
      invariant position == None && entryChild == None
    {
      var c := children[i];
      if c.signals.startLong && cfg.allowLong {
        position := TryOpen(Long, OpenFill(Long, c.candle), c.atr, c.candle.timestamp, index, equity, cfg);
        if position.Some? {
          return position, Some(i);
        }
      }
      if c.signals.startShort && cfg.allowShort {
        position := TryOpen(Short, OpenFill(Short, c.candle), c.atr, c.candle.timestamp, index, equity, cfg);
        if position.Some? {
          return position, Some(i);
        }
      }
      position := None;
      i := i + 1;
    }
  }
}
