/** `LorentzianClassifier.generate`: from predictions to entries and exits, bar by bar. */
module Lorentz {
  import opened Options
  import opened Neighbours
  import EntryCooldown

  datatype Settings = Settings(
    core: Config,
    persistenceBars: int,
    cooldownBars: int,
    blockEarlyFlips: bool,
    useKernelFilter: bool,
    useKernelSmoothing: bool,
    useEmaFilter: bool,
    useSmaFilter: bool,
    useDynamicExits: bool,
    allowLong: bool,
    allowShort: bool)

  /** The classifier's columns that entries and exits are computed from. */
  datatype Series = Series(predictions: seq<int>, signals: seq<int>, barsHeld: seq<int>)

  predicate Fits(bars: seq<Bar>, s: Series) {
    |s.predictions| == |s.signals| == |s.barsHeld| == |bars|
  }

  function SeriesOf(core: Config, bars: seq<Bar>, first: nat): (s: Series)
    ensures Fits(bars, s)
  {
    var state := Loop(core, bars, first, |bars|);
    Series(state.predictions, state.signals, state.barsHeld)
  }

  predicate Change(signals: seq<int>, t: int) {
    0 < t < |signals| && signals[t] != signals[t - 1]
  }

  predicate EverChanged(signals: seq<int>, t: int) {
    exists j :: 0 < j <= t && Change(signals, j)
  }

  predicate EarlyFlip(signals: seq<int>, t: int) {
    Change(signals, t) && (Change(signals, t - 1) || Change(signals, t - 2) || Change(signals, t - 3))
  }

  predicate Buy(bars: seq<Bar>, s: Series, t: int)
    requires Fits(bars, s)
  {
    0 <= t < |bars| && s.signals[t] == 1 && bars[t].emaUp && bars[t].smaUp
  }

  predicate Sell(bars: seq<Bar>, s: Series, t: int)
    requires Fits(bars, s)
  {
    0 <= t < |bars| && s.signals[t] == -1 && bars[t].emaDown && bars[t].smaDown
  }

  /** The last n bars up to t all signalled and came after the first change of signal. */
  predicate BuysHeld(bars: seq<Bar>, s: Series, n: int, t: int)
    requires Fits(bars, s)
  {
    n <= t + 1 && forall j :: t - n < j <= t ==> Buy(bars, s, j) && EverChanged(s.signals, j)
  }

  predicate SellsHeld(bars: seq<Bar>, s: Series, n: int, t: int)
    requires Fits(bars, s)
  {
    n <= t + 1 && forall j :: t - n < j <= t ==> Sell(bars, s, j) && EverChanged(s.signals, j)
  }

  /** A new buy: at once on a change of signal, or the first bar at which enough bars persisted. */
  predicate NewBuy(cfg: Settings, bars: seq<Bar>, s: Series, t: int)
    requires Fits(bars, s)
  {
    if cfg.persistenceBars <= 1 then Buy(bars, s, t) && Change(s.signals, t)
    else BuysHeld(bars, s, cfg.persistenceBars, t) && !BuysHeld(bars, s, cfg.persistenceBars, t - 1)
  }

  predicate NewSell(cfg: Settings, bars: seq<Bar>, s: Series, t: int)
    requires Fits(bars, s)
  {
    if cfg.persistenceBars <= 1 then Sell(bars, s, t) && Change(s.signals, t)
    else SellsHeld(bars, s, cfg.persistenceBars, t) && !SellsHeld(bars, s, cfg.persistenceBars, t - 1)
  }

  /** Comparisons with a value that is not finite are false. */
  predicate Less(a: Option<real>, b: Option<real>) {
    a.Some? && b.Some? && a.value < b.value
  }

  predicate AtMost(a: Option<real>, b: Option<real>) {
    a.Some? && b.Some? && a.value <= b.value
  }

  predicate Rises(bars: seq<Bar>, t: int) {
    0 < t < |bars| && Less(bars[t - 1].yhat1, bars[t].yhat1)
  }

  predicate Falls(bars: seq<Bar>, t: int) {
    0 < t < |bars| && Less(bars[t].yhat1, bars[t - 1].yhat1)
  }

  predicate BearishChange(bars: seq<Bar>, t: int) {
    Falls(bars, t) && Rises(bars, t - 1)
  }

  predicate BullishChange(bars: seq<Bar>, t: int) {
    Rises(bars, t) && Falls(bars, t - 1)
  }

  predicate CrossesOver(bars: seq<Bar>, t: int) {
    0 < t < |bars| && Less(bars[t].yhat1, bars[t].yhat2) && AtMost(bars[t - 1].yhat2, bars[t - 1].yhat1)
  }

  predicate CrossesUnder(bars: seq<Bar>, t: int) {
    0 < t < |bars| && Less(bars[t].yhat2, bars[t].yhat1) && AtMost(bars[t - 1].yhat1, bars[t - 1].yhat2)
  }

  predicate AlertBullish(cfg: Settings, bars: seq<Bar>, t: int) {
    if cfg.useKernelSmoothing then CrossesOver(bars, t) else BullishChange(bars, t)
  }

  predicate AlertBearish(cfg: Settings, bars: seq<Bar>, t: int) {
    if cfg.useKernelSmoothing then CrossesUnder(bars, t) else BearishChange(bars, t)
  }

  predicate BullishKernel(cfg: Settings, bars: seq<Bar>, t: nat)
    requires t < |bars|
  {
    if !cfg.useKernelFilter then true
    else if cfg.useKernelSmoothing then AtMost(bars[t].yhat1, bars[t].yhat2) else Rises(bars, t)
  }

  predicate BearishKernel(cfg: Settings, bars: seq<Bar>, t: nat)
    requires t < |bars|
  {
    if !cfg.useKernelFilter then true
    else if cfg.useKernelSmoothing then AtMost(bars[t].yhat2, bars[t].yhat1) else Falls(bars, t)
  }

  function Magnitude(x: int): int { if x < 0 then -x else x }

  /** Strong enough, and not an early flip when those are blocked. */
  predicate Stable(cfg: Settings, s: Series, t: nat)
    requires t < |s.predictions|
  {
    && (cfg.core.minMagnitude <= 0.0 || Magnitude(s.predictions[t]) as real >= cfg.core.minMagnitude)
    && (!cfg.blockEarlyFlips || !EarlyFlip(s.signals, t))
  }

  predicate LongCandidate(cfg: Settings, bars: seq<Bar>, s: Series, t: nat)
    requires Fits(bars, s) && t < |bars|
  {
    NewBuy(cfg, bars, s, t) && BullishKernel(cfg, bars, t) && bars[t].emaUp && bars[t].smaUp && Stable(cfg, s, t)
  }

  predicate ShortCandidate(cfg: Settings, bars: seq<Bar>, s: Series, t: nat)
    requires Fits(bars, s) && t < |bars|
  {
    NewSell(cfg, bars, s, t) && BearishKernel(cfg, bars, t) && bars[t].emaDown && bars[t].smaDown && Stable(cfg, s, t)
  }

  function LongCandidates(cfg: Settings, bars: seq<Bar>, s: Series): (c: seq<bool>)
    requires Fits(bars, s)
    ensures |c| == |bars| && forall t :: 0 <= t < |c| ==> c[t] == LongCandidate(cfg, bars, s, t)
  {
    seq(|bars|, t requires 0 <= t < |bars| => LongCandidate(cfg, bars, s, t))
  }

  function ShortCandidates(cfg: Settings, bars: seq<Bar>, s: Series): (c: seq<bool>)
    requires Fits(bars, s)
    ensures |c| == |bars| && forall t :: 0 <= t < |c| ==> c[t] == ShortCandidate(cfg, bars, s, t)
  {
    seq(|bars|, t requires 0 <= t < |bars| => ShortCandidate(cfg, bars, s, t))
  }

  predicate CooledDown(cfg: Settings, bars: seq<Bar>, s: Series, t: nat)
    requires Fits(bars, s) && t < |bars|
  {
    EntryCooldown.Accepted(EntryCooldown.Candidates(LongCandidates(cfg, bars, s), ShortCandidates(cfg, bars, s)),
                           EntryCooldown.Cooldown(cfg.cooldownBars), t)
  }

  /** The accepted entries, before the side permissions are applied. */
  predicate LongEntry(cfg: Settings, bars: seq<Bar>, s: Series, t: int)
    requires Fits(bars, s)
  {
    0 <= t < |bars| && LongCandidate(cfg, bars, s, t) && CooledDown(cfg, bars, s, t)
  }

  predicate ShortEntry(cfg: Settings, bars: seq<Bar>, s: Series, t: int)
    requires Fits(bars, s)
  {
    0 <= t < |bars| && ShortCandidate(cfg, bars, s, t) && CooledDown(cfg, bars, s, t)
  }

  /** `_bars_since` at one bar. */
  function BarsSince(condition: seq<bool>, t: nat): (d: Option<nat>)
    requires t < |condition|
  {
    if condition[t] then Some(0)
    else if t == 0 then None
    else
      var before := BarsSince(condition, t - 1);
      if before.None? then None else Some(before.value + 1)
  }

  /** The exit condition was last met before the last entry: later means fewer bars since. */
  predicate ExitArmed(exits: seq<bool>, entries: seq<bool>, t: int)
    requires |exits| == |entries|
  {
    0 <= t < |exits| &&
    var sinceExit, sinceEntry := BarsSince(exits, t), BarsSince(entries, t);
    sinceExit.Some? && sinceEntry.Some? && sinceExit.value > sinceEntry.value
  }

  function LongEntries(cfg: Settings, bars: seq<Bar>, s: Series): (r: seq<bool>)
    requires Fits(bars, s)
    ensures |r| == |bars| && forall t :: 0 <= t < |r| ==> r[t] == LongEntry(cfg, bars, s, t)
  {
    seq(|bars|, t requires 0 <= t < |bars| => LongEntry(cfg, bars, s, t))
  }

  function ShortEntries(cfg: Settings, bars: seq<Bar>, s: Series): (r: seq<bool>)
    requires Fits(bars, s)
    ensures |r| == |bars| && forall t :: 0 <= t < |r| ==> r[t] == ShortEntry(cfg, bars, s, t)
  {
    seq(|bars|, t requires 0 <= t < |bars| => ShortEntry(cfg, bars, s, t))
  }

  function BearishAlerts(cfg: Settings, bars: seq<Bar>): (r: seq<bool>)
    ensures |r| == |bars| && forall t :: 0 <= t < |r| ==> r[t] == AlertBearish(cfg, bars, t)
  {
    seq(|bars|, t requires 0 <= t < |bars| => AlertBearish(cfg, bars, t))
  }

  function BullishAlerts(cfg: Settings, bars: seq<Bar>): (r: seq<bool>)
    ensures |r| == |bars| && forall t :: 0 <= t < |r| ==> r[t] == AlertBullish(cfg, bars, t)
  {
    seq(|bars|, t requires 0 <= t < |bars| => AlertBullish(cfg, bars, t))
  }

  predicate LongDynamicExit(cfg: Settings, bars: seq<Bar>, s: Series, t: int)
    requires Fits(bars, s)
  {
    BearishChange(bars, t) && ExitArmed(BearishAlerts(cfg, bars), LongEntries(cfg, bars, s), t - 1)
  }

  predicate ShortDynamicExit(cfg: Settings, bars: seq<Bar>, s: Series, t: int)
    requires Fits(bars, s)
  {
    BullishChange(bars, t) && ExitArmed(BullishAlerts(cfg, bars), ShortEntries(cfg, bars, s), t - 1)
  }

  predicate LongStrictExit(cfg: Settings, bars: seq<Bar>, s: Series, t: nat)
    requires Fits(bars, s) && t < |bars|
  {
    && ((s.barsHeld[t] == 4 && Buy(bars, s, t - 4))
        || (1 <= s.barsHeld[t] <= 3 && NewSell(cfg, bars, s, t) && Buy(bars, s, t - 4)))
    && LongEntry(cfg, bars, s, t - 4)
  }

  predicate ShortStrictExit(cfg: Settings, bars: seq<Bar>, s: Series, t: nat)
    requires Fits(bars, s) && t < |bars|
  {
    && ((s.barsHeld[t] == 4 && Sell(bars, s, t - 4))
        || (1 <= s.barsHeld[t] <= 3 && NewBuy(cfg, bars, s, t) && Sell(bars, s, t - 4)))
    && ShortEntry(cfg, bars, s, t - 4)
  }

  predicate UsesDynamic(cfg: Settings) {
    cfg.useDynamicExits && !cfg.useEmaFilter && !cfg.useSmaFilter && !cfg.useKernelSmoothing
  }

  predicate LongExit(cfg: Settings, bars: seq<Bar>, s: Series, t: nat)
    requires Fits(bars, s) && t < |bars|
  {
    if UsesDynamic(cfg) then LongDynamicExit(cfg, bars, s, t) else LongStrictExit(cfg, bars, s, t)
  }

  predicate ShortExit(cfg: Settings, bars: seq<Bar>, s: Series, t: nat)
    requires Fits(bars, s) && t < |bars|
  {
    if UsesDynamic(cfg) then ShortDynamicExit(cfg, bars, s, t) else ShortStrictExit(cfg, bars, s, t)
  }

  datatype Row = Row(prediction: int, signal: int, barsHeld: int,
                     startLong: bool, startShort: bool, endLong: bool, endShort: bool)

  function LongExits(cfg: Settings, bars: seq<Bar>, s: Series): (r: seq<bool>)
    requires Fits(bars, s)
    ensures |r| == |bars| && forall t :: 0 <= t < |r| ==> r[t] == LongExit(cfg, bars, s, t)
  {
    seq(|bars|, t requires 0 <= t < |bars| => LongExit(cfg, bars, s, t))
  }

  function ShortExits(cfg: Settings, bars: seq<Bar>, s: Series): (r: seq<bool>)
    requires Fits(bars, s)
    ensures |r| == |bars| && forall t :: 0 <= t < |r| ==> r[t] == ShortExit(cfg, bars, s, t)
  {
    seq(|bars|, t requires 0 <= t < |bars| => ShortExit(cfg, bars, s, t))
  }

  /** The result frame out of its columns. */
  function Assemble(cfg: Settings, s: Series, longs: seq<bool>, shorts: seq<bool>,
                    endLongs: seq<bool>, endShorts: seq<bool>): (r: seq<Row>)
    requires |s.predictions| == |s.signals| == |s.barsHeld| == |longs| == |shorts| == |endLongs| == |endShorts|
    ensures |r| == |longs|
  {
    seq(|longs|, t requires 0 <= t < |longs| =>
      Row(s.predictions[t], s.signals[t], s.barsHeld[t], longs[t] && cfg.allowLong, shorts[t] && cfg.allowShort,
          endLongs[t], endShorts[t]))
  }

  function Rows(cfg: Settings, bars: seq<Bar>): (r: seq<Row>)
    ensures |r| == |bars|
  {
    var s := SeriesOf(cfg.core, bars, FirstBar(cfg.core, |bars|));
    Assemble(cfg, s, LongEntries(cfg, bars, s), ShortEntries(cfg, bars, s), LongExits(cfg, bars, s),
      ShortExits(cfg, bars, s))
  }

  /** `_bars_since`. */
  method CountBarsSince(condition: seq<bool>) returns (since: seq<Option<nat>>)
    ensures |since| == |condition|
    ensures forall t :: 0 <= t < |condition| ==> since[t] == BarsSince(condition, t)
  {
    since := [];
    var lastTrue: Option<nat> := None;
    for t := 0 to |condition|
      invariant |since| == t
      invariant forall j :: 0 <= j < t ==> since[j] == BarsSince(condition, j)
      invariant lastTrue.Some? ==> lastTrue.value < t
      invariant t > 0 ==> BarsSince(condition, t - 1) == if lastTrue.None? then None else Some(t - 1 - lastTrue.value)
      invariant t == 0 ==> lastTrue.None?
    {
      if condition[t] {
        lastTrue := Some(t);
        since := since + [Some(0)];
      } else if lastTrue.None? {
        since := since + [None];
      } else {
        since := since + [Some(t - lastTrue.value)];
      }
    }
  }

  /** Bar by bar, whether the exit condition was last met before the last entry. */
  method ArmedColumn(exits: seq<bool>, entries: seq<bool>) returns (armed: seq<bool>)
    requires |exits| == |entries|
    ensures |armed| == |exits|
    ensures forall t :: 0 <= t < |exits| ==> armed[t] == ExitArmed(exits, entries, t)
  {
    var sinceExit := CountBarsSince(exits);
    var sinceEntry := CountBarsSince(entries);
    armed := seq(|exits|, t requires 0 <= t < |exits| =>
      sinceExit[t].Some? && sinceEntry[t].Some? && sinceExit[t].value > sinceEntry[t].value);
  }

  /** The exit columns, from the counters and the accepted entries. */
  method ExitColumns(cfg: Settings, bars: seq<Bar>, s: Series, longs: seq<bool>, shorts: seq<bool>)
    returns (endLongs: seq<bool>, endShorts: seq<bool>)
    requires Fits(bars, s)
    requires longs == LongEntries(cfg, bars, s) && shorts == ShortEntries(cfg, bars, s)
    ensures endLongs == LongExits(cfg, bars, s) && endShorts == ShortExits(cfg, bars, s)
  {
    var longArmed := ArmedColumn(BearishAlerts(cfg, bars), longs);
    var shortArmed := ArmedColumn(BullishAlerts(cfg, bars), shorts);
    if UsesDynamic(cfg) {
      endLongs := seq(|bars|, t requires 0 <= t < |bars| => BearishChange(bars, t) && t > 0 && longArmed[t - 1]);
      endShorts := seq(|bars|, t requires 0 <= t < |bars| => BullishChange(bars, t) && t > 0 && shortArmed[t - 1]);
      assert forall t: nat :: t < |bars| ==> endLongs[t] == LongExit(cfg, bars, s, t);
      assert forall t: nat :: t < |bars| ==> endShorts[t] == ShortExit(cfg, bars, s, t);
    } else {
      endLongs := seq(|bars|, t requires 0 <= t < |bars| =>
        ((s.barsHeld[t] == 4 && Buy(bars, s, t - 4))
         || (1 <= s.barsHeld[t] <= 3 && NewSell(cfg, bars, s, t) && Buy(bars, s, t - 4)))
        && t >= 4 && longs[t - 4]);
      endShorts := seq(|bars|, t requires 0 <= t < |bars| =>
        ((s.barsHeld[t] == 4 && Sell(bars, s, t - 4))
         || (1 <= s.barsHeld[t] <= 3 && NewBuy(cfg, bars, s, t) && Sell(bars, s, t - 4)))
        && t >= 4 && shorts[t - 4]);
      assert forall t: nat :: t < |bars| ==> endLongs[t] == LongExit(cfg, bars, s, t);
      assert forall t: nat :: t < |bars| ==> endShorts[t] == ShortExit(cfg, bars, s, t);
    }
  }

  /** The cooled-down entry columns. */
  method EntryColumns(cfg: Settings, bars: seq<Bar>, s: Series) returns (longs: seq<bool>, shorts: seq<bool>)
    requires Fits(bars, s)
    ensures longs == LongEntries(cfg, bars, s) && shorts == ShortEntries(cfg, bars, s)
  {
    var allowed;
    longs, shorts, allowed :=
      EntryCooldown.ApplyEntryCooldown(LongCandidates(cfg, bars, s), ShortCandidates(cfg, bars, s), cfg.cooldownBars);
  }

  /** `generate`: the main loop, the cooldown, the bars-since counters, and the result frame. */
  method Generate(cfg: Settings, bars: seq<Bar>) returns (rows: seq<Row>)
    ensures rows == Rows(cfg, bars)
  {
    var predictions, signals, barsHeld, stores, accepted := RunLoop(cfg.core, bars);
    var s := Series(predictions, signals, barsHeld);
    var longs, shorts := EntryColumns(cfg, bars, s);
    var endLongs, endShorts := ExitColumns(cfg, bars, s, longs, shorts);
    rows := Assemble(cfg, s, longs, shorts, endLongs, endShorts);
  }
}
