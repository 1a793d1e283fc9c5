/** The rows of a run as their reader sees them: how signals follow from predictions, how starts follow from signals,
    trend tests, kernel estimates and the cooldown, and how ends follow from starts. */
module LorentzRows {
  import opened Options
  import opened Sides
  import opened Neighbours
  import opened Lorentz
  import LorentzExits
  import EntryCooldown

  // ---------------------------------------------------------------- signals

  /** A prediction that counts: not zero, strong enough, on a bar whose filters all pass. */
  predicate Counts(core: Config, prediction: int, filterAll: bool) {
    && filterAll && prediction != 0
    && (core.minMagnitude <= 0.0
        || prediction as real >= core.minMagnitude || (-prediction) as real >= core.minMagnitude)
  }

  predicate CountsAt(core: Config, bars: seq<Bar>, predictions: seq<int>, j: nat)
    requires j < |bars| && j < |predictions|
  {
    Counts(core, predictions[j], bars[j].filterAll)
  }

  /** The last prediction up to bar t that counts is that of bar j. */
  ghost predicate LastToCount(core: Config, bars: seq<Bar>, predictions: seq<int>, j: nat, t: nat)
    requires t < |bars| && t < |predictions|
  {
    && j <= t && CountsAt(core, bars, predictions, j)
    && forall i :: j < i <= t ==> !CountsAt(core, bars, predictions, i)
  }

  ghost predicate NoneCounts(core: Config, bars: seq<Bar>, predictions: seq<int>, t: nat)
    requires t < |bars| && t < |predictions|
  {
    forall i :: 0 <= i <= t ==> !CountsAt(core, bars, predictions, i)
  }

  /** The signal is the side of the last prediction that counts, and none before there is one. */
  ghost predicate SignalFits(core: Config, bars: seq<Bar>, predictions: seq<int>, signal: int, t: nat)
    requires t < |bars| && t < |predictions|
  {
    || (signal == 0 && NoneCounts(core, bars, predictions, t))
    || (signal == 1 && exists j: nat :: LastToCount(core, bars, predictions, j, t) && predictions[j] > 0)
    || (signal == -1 && exists j: nat :: LastToCount(core, bars, predictions, j, t) && predictions[j] < 0)
  }

  lemma NextSignalCounts(core: Config, signal: int, prediction: int, filterAll: bool)
    ensures NextSignal(core, signal, prediction, filterAll)
            == if Counts(core, prediction, filterAll) then if prediction > 0 then 1 else -1 else signal
  {
  }

  lemma SignalStep(core: Config, bars: seq<Bar>, before: seq<int>, predictions: seq<int>, signal: int, t: nat)
    requires t < |bars| && |predictions| == t + 1 && before + [predictions[t]] == predictions
    requires t > 0 ==> SignalFits(core, bars, before, signal, t - 1)
    requires t == 0 ==> signal == 0
    ensures SignalFits(core, bars, predictions, NextSignal(core, signal, predictions[t], bars[t].filterAll), t)
  {
    NextSignalCounts(core, signal, predictions[t], bars[t].filterAll);
    assert forall j: nat :: j < t ==> before[j] == predictions[j];
    if CountsAt(core, bars, predictions, t) {
      assert LastToCount(core, bars, predictions, t, t);
    } else if t > 0 {
      forall j: nat | LastToCount(core, bars, before, j, t - 1) ensures LastToCount(core, bars, predictions, j, t) {
        assert CountsAt(core, bars, before, j) == CountsAt(core, bars, predictions, j);
        assert forall i: nat :: i < t ==> CountsAt(core, bars, before, i) == CountsAt(core, bars, predictions, i);
      }
      assert forall i: nat :: i < t ==> CountsAt(core, bars, before, i) == CountsAt(core, bars, predictions, i);
    }
  }

  lemma LoopSignals(core: Config, bars: seq<Bar>, first: nat, n: nat)
    requires n <= |bars|
    ensures var s := Loop(core, bars, first, n);
            && (n == 0 ==> s.signal == 0)
            && (n > 0 ==> s.signals[n - 1] == s.signal && SignalFits(core, bars, s.predictions, s.signal, n - 1))
  {
    for t := 0 to n
      invariant var s := Loop(core, bars, first, t);
                && (t == 0 ==> s.signal == 0)
                && (t > 0 ==> s.signals[t - 1] == s.signal && SignalFits(core, bars, s.predictions, s.signal, t - 1))
    {
      var s := Loop(core, bars, first, t);
      var next := Loop(core, bars, first, t + 1);
      LoopAppends(core, bars, first, t);
      SignalStep(core, bars, s.predictions, next.predictions, s.signal, t);
    }
  }

  lemma FitsOnPrefix(core: Config, bars: seq<Bar>, predictions: seq<int>, n: nat, signal: int, t: nat)
    requires t < n <= |predictions| <= |bars|
    ensures SignalFits(core, bars, predictions[..n], signal, t) <==> SignalFits(core, bars, predictions, signal, t)
  {
    assert forall i: nat :: i < n ==> CountsAt(core, bars, predictions[..n], i) == CountsAt(core, bars, predictions, i);
    forall j: nat
      ensures LastToCount(core, bars, predictions[..n], j, t) <==> LastToCount(core, bars, predictions, j, t)
    {
    }
  }

  /** Over a whole run every signal is the side of the last prediction so far that counts. */
  lemma SignalsFollowPredictions(core: Config, bars: seq<Bar>, first: nat, t: nat)
    requires t < |bars|
    ensures var s := SeriesOf(core, bars, first);
            SignalFits(core, bars, s.predictions, s.signals[t], t)
  {
    LoopSignals(core, bars, first, t + 1);
    LoopIsIncremental(core, bars, first, t + 1, |bars|);
    var s := SeriesOf(core, bars, first);
    FitsOnPrefix(core, bars, s.predictions, t + 1, s.signals[t], t);
  }

  // ---------------------------------------------------------------- starts

  predicate Turns(rows: seq<Row>, t: int) {
    0 < t < |rows| && rows[t].signal != rows[t - 1].signal
  }

  ghost predicate TurnedBy(rows: seq<Row>, t: int) {
    exists j :: 0 < j <= t && Turns(rows, j)
  }

  function Opposite(side: Side): Side {
    match side
    case Long => Short
    case Short => Long
  }

  /** The signal is for the side and both trend tests pass. */
  predicate Backs(side: Side, bars: seq<Bar>, rows: seq<Row>, t: int) {
    && 0 <= t < |rows| && t < |bars|
    && match side
       case Long => rows[t].signal == 1 && bars[t].emaUp && bars[t].smaUp
       case Short => rows[t].signal == -1 && bars[t].emaDown && bars[t].smaDown
  }

  ghost predicate Confirms(side: Side, bars: seq<Bar>, rows: seq<Row>, t: int) {
    Backs(side, bars, rows, t) && TurnedBy(rows, t)
  }

  /** Newly backed: on the turn itself, or, with a longer persistence, when exactly that many bars in a row confirm. */
  ghost predicate NewlyBacked(side: Side, cfg: Settings, bars: seq<Bar>, rows: seq<Row>, t: int) {
    if cfg.persistenceBars <= 1 then Backs(side, bars, rows, t) && Turns(rows, t)
    else
      && cfg.persistenceBars <= t + 1
      && (forall j :: t - cfg.persistenceBars < j <= t ==> Confirms(side, bars, rows, j))
      && !Confirms(side, bars, rows, t - cfg.persistenceBars)
  }

  /** The kernel estimate moves with the side, or, smoothed, lies on its side. */
  predicate KernelAgrees(side: Side, cfg: Settings, bars: seq<Bar>, t: nat)
    requires t < |bars|
  {
    if !cfg.useKernelFilter then true
    else if cfg.useKernelSmoothing then
      && bars[t].yhat1.Some? && bars[t].yhat2.Some?
      && match side
         case Long => bars[t].yhat2.value >= bars[t].yhat1.value
         case Short => bars[t].yhat2.value <= bars[t].yhat1.value
    else Moves(side, bars, t)
  }

  predicate Moves(side: Side, bars: seq<Bar>, t: int) {
    && 0 < t < |bars| && bars[t - 1].yhat1.Some? && bars[t].yhat1.Some?
    && match side
       case Long => bars[t].yhat1.value > bars[t - 1].yhat1.value
       case Short => bars[t].yhat1.value < bars[t - 1].yhat1.value
  }

  /** Strong enough, and not a turn within three bars of another when those are blocked. */
  predicate Steady(cfg: Settings, rows: seq<Row>, t: nat)
    requires t < |rows|
  {
    && (cfg.core.minMagnitude <= 0.0
        || rows[t].prediction as real >= cfg.core.minMagnitude
        || (-rows[t].prediction) as real >= cfg.core.minMagnitude)
    && !(cfg.blockEarlyFlips && Turns(rows, t)
         && (Turns(rows, t - 1) || Turns(rows, t - 2) || Turns(rows, t - 3)))
  }

  ghost predicate SetUp(side: Side, cfg: Settings, bars: seq<Bar>, rows: seq<Row>, t: nat)
    requires t < |bars| && t < |rows|
  {
    && NewlyBacked(side, cfg, bars, rows, t) && Backs(side, bars, rows, t)
    && KernelAgrees(side, cfg, bars, t) && Steady(cfg, rows, t)
  }

  /** One side is set up, and no start, of either side, lies within the cooldown before. */
  ghost predicate Opened(cfg: Settings, bars: seq<Bar>, rows: seq<Row>, t: nat)
    requires t < |bars| && t < |rows|
  {
    && (SetUp(Long, cfg, bars, rows, t) || SetUp(Short, cfg, bars, rows, t))
    && forall u: nat :: t - cfg.cooldownBars <= u < t ==> !Opened(cfg, bars, rows, u)
  }

  ghost predicate Started(side: Side, cfg: Settings, bars: seq<Bar>, rows: seq<Row>, t: int) {
    0 <= t < |bars| && t < |rows| && SetUp(side, cfg, bars, rows, t) && Opened(cfg, bars, rows, t)
  }

  // ---------------------------------------------------------------- ends

  /** The kernel estimate has just turned against the side. */
  predicate TurnsAgainst(side: Side, bars: seq<Bar>, t: int) {
    Moves(Opposite(side), bars, t) && Moves(side, bars, t - 1)
  }

  /** The estimate turns against the side, for the first time since some start that an earlier such turn precedes. */
  ghost predicate EndsOnKernel(side: Side, cfg: Settings, bars: seq<Bar>, rows: seq<Row>, t: int) {
    && TurnsAgainst(side, bars, t)
    && exists e :: 0 <= e < t && Started(side, cfg, bars, rows, e)
                   && (forall g :: e <= g < t ==> !TurnsAgainst(side, bars, g))
                   && exists g :: 0 <= g < e && TurnsAgainst(side, bars, g)
  }

  /** Four bars after a start: the signal has not turned since, or, with a longer persistence, the other side is newly
      backed. */
  ghost predicate EndsAfterFour(side: Side, cfg: Settings, bars: seq<Bar>, rows: seq<Row>, t: int) {
    && Started(side, cfg, bars, rows, t - 4)
    && if cfg.persistenceBars <= 1 then forall j :: t - 3 <= j <= t ==> !Turns(rows, j)
       else NewlyBacked(Opposite(side), cfg, bars, rows, t)
  }

  ghost predicate Ended(side: Side, cfg: Settings, bars: seq<Bar>, rows: seq<Row>, t: int) {
    if cfg.useDynamicExits && !cfg.useEmaFilter && !cfg.useSmaFilter && !cfg.useKernelSmoothing
    then EndsOnKernel(side, cfg, bars, rows, t) else EndsAfterFour(side, cfg, bars, rows, t)
  }

  /** The smoothed estimate comes to lie on the side. */
  predicate Crosses(side: Side, bars: seq<Bar>, t: int) {
    && 0 < t < |bars|
    && bars[t].yhat1.Some? && bars[t].yhat2.Some? && bars[t - 1].yhat1.Some? && bars[t - 1].yhat2.Some?
    && match side
       case Long =>
         bars[t].yhat2.value > bars[t].yhat1.value && bars[t - 1].yhat2.value <= bars[t - 1].yhat1.value
       case Short =>
         bars[t].yhat2.value < bars[t].yhat1.value && bars[t - 1].yhat2.value >= bars[t - 1].yhat1.value
  }

  /** What raises an alert for a side: the smoothed estimate crossing to it, or the plain one turning to it. */
  lemma AlertsMean(cfg: Settings, bars: seq<Bar>, t: int)
    ensures AlertBullish(cfg, bars, t)
            <==> if cfg.useKernelSmoothing then Crosses(Long, bars, t) else TurnsAgainst(Short, bars, t)
    ensures AlertBearish(cfg, bars, t)
            <==> if cfg.useKernelSmoothing then Crosses(Short, bars, t) else TurnsAgainst(Long, bars, t)
  {
  }

  // ---------------------------------------------------------------- the rows obey

  /** The rows show the columns they were made of. */
  ghost predicate Shows(rows: seq<Row>, bars: seq<Bar>, s: Series) {
    && Fits(bars, s) && |rows| == |bars|
    && forall t :: 0 <= t < |rows| ==>
         rows[t].prediction == s.predictions[t] && rows[t].signal == s.signals[t] && rows[t].barsHeld == s.barsHeld[t]
  }

  lemma RowsShow(cfg: Settings, bars: seq<Bar>)
    ensures Shows(Rows(cfg, bars), bars, SeriesOf(cfg.core, bars, FirstBar(cfg.core, |bars|)))
  {
  }

  lemma TurnIsChange(rows: seq<Row>, bars: seq<Bar>, s: Series, t: int)
    requires Shows(rows, bars, s)
    ensures Turns(rows, t) == Change(s.signals, t)
  {
  }

  lemma TurnedIsChanged(rows: seq<Row>, bars: seq<Bar>, s: Series, t: int)
    requires Shows(rows, bars, s)
    ensures TurnedBy(rows, t) == EverChanged(s.signals, t)
  {
    forall j: int ensures Turns(rows, j) == Change(s.signals, j) {
      TurnIsChange(rows, bars, s, j);
    }
  }

  lemma ConfirmIsHeld(rows: seq<Row>, bars: seq<Bar>, s: Series, t: int)
    requires Shows(rows, bars, s)
    ensures Backs(Long, bars, rows, t) == Buy(bars, s, t) && Backs(Short, bars, rows, t) == Sell(bars, s, t)
    ensures Confirms(Long, bars, rows, t) == (Buy(bars, s, t) && EverChanged(s.signals, t))
    ensures Confirms(Short, bars, rows, t) == (Sell(bars, s, t) && EverChanged(s.signals, t))
  {
    TurnedIsChanged(rows, bars, s, t);
  }

  lemma NewlyBackedIsNew(cfg: Settings, rows: seq<Row>, bars: seq<Bar>, s: Series, t: int)
    requires Shows(rows, bars, s) && t < |bars|
    ensures NewlyBacked(Long, cfg, bars, rows, t) == NewBuy(cfg, bars, s, t)
    ensures NewlyBacked(Short, cfg, bars, rows, t) == NewSell(cfg, bars, s, t)
  {
    TurnIsChange(rows, bars, s, t);
    forall j: int
      ensures Backs(Long, bars, rows, j) == Buy(bars, s, j) && Backs(Short, bars, rows, j) == Sell(bars, s, j)
      ensures Confirms(Long, bars, rows, j) == (Buy(bars, s, j) && EverChanged(s.signals, j))
      ensures Confirms(Short, bars, rows, j) == (Sell(bars, s, j) && EverChanged(s.signals, j))
    {
      ConfirmIsHeld(rows, bars, s, j);
    }
    if cfg.persistenceBars >= 2 {
      RunStarts(Long, cfg.persistenceBars, bars, rows, t);
      RunStarts(Short, cfg.persistenceBars, bars, rows, t);
      assert BuysHeld(bars, s, cfg.persistenceBars, t) == HeldFor(Long, cfg.persistenceBars, bars, rows, t);
      assert BuysHeld(bars, s, cfg.persistenceBars, t - 1) == HeldFor(Long, cfg.persistenceBars, bars, rows, t - 1);
      assert SellsHeld(bars, s, cfg.persistenceBars, t) == HeldFor(Short, cfg.persistenceBars, bars, rows, t);
      assert SellsHeld(bars, s, cfg.persistenceBars, t - 1) == HeldFor(Short, cfg.persistenceBars, bars, rows, t - 1);
    }
  }

  ghost predicate HeldFor(side: Side, n: int, bars: seq<Bar>, rows: seq<Row>, t: int) {
    n <= t + 1 && forall j :: t - n < j <= t ==> Confirms(side, bars, rows, j)
  }

  /** Held for n bars now but not one bar ago means held for exactly n bars. */
  lemma RunStarts(side: Side, n: int, bars: seq<Bar>, rows: seq<Row>, t: int)
    requires n >= 2
    ensures HeldFor(side, n, bars, rows, t) && !HeldFor(side, n, bars, rows, t - 1)
            <==> HeldFor(side, n, bars, rows, t) && !Confirms(side, bars, rows, t - n)
  {
    if HeldFor(side, n, bars, rows, t) && Confirms(side, bars, rows, t - n) {
      assert t - n >= 0;
      forall j | t - 1 - n < j <= t - 1 ensures Confirms(side, bars, rows, j) {
        assert j == t - n || t - n < j <= t;
      }
    }
    if HeldFor(side, n, bars, rows, t) && HeldFor(side, n, bars, rows, t - 1) {
      assert t - 1 - n < t - n <= t - 1;
    }
  }

  lemma SetUpIsCandidate(cfg: Settings, rows: seq<Row>, bars: seq<Bar>, s: Series, t: nat)
    requires Shows(rows, bars, s) && t < |bars|
    ensures SetUp(Long, cfg, bars, rows, t) == LongCandidate(cfg, bars, s, t)
    ensures SetUp(Short, cfg, bars, rows, t) == ShortCandidate(cfg, bars, s, t)
  {
    NewlyBackedIsNew(cfg, rows, bars, s, t);
    ConfirmIsHeld(rows, bars, s, t);
    TurnIsChange(rows, bars, s, t);
    TurnIsChange(rows, bars, s, t - 1);
    TurnIsChange(rows, bars, s, t - 2);
    TurnIsChange(rows, bars, s, t - 3);
    assert Steady(cfg, rows, t) == Stable(cfg, s, t);
    assert cfg.persistenceBars >= 2 && NewlyBacked(Long, cfg, bars, rows, t) ==> Confirms(Long, bars, rows, t);
    assert cfg.persistenceBars >= 2 && NewlyBacked(Short, cfg, bars, rows, t) ==> Confirms(Short, bars, rows, t);
  }

  lemma {:induction false} OpenedIsCooledDown(cfg: Settings, rows: seq<Row>, bars: seq<Bar>, s: Series, t: nat)
    requires Shows(rows, bars, s) && t < |bars|
    ensures Opened(cfg, bars, rows, t)
            == ((LongCandidate(cfg, bars, s, t) || ShortCandidate(cfg, bars, s, t)) && CooledDown(cfg, bars, s, t))
  {
    var c := EntryCooldown.Candidates(LongCandidates(cfg, bars, s), ShortCandidates(cfg, bars, s));
    SetUpIsCandidate(cfg, rows, bars, s, t);
    forall u: nat | u < t
      ensures Opened(cfg, bars, rows, u) == EntryCooldown.Accepted(c, EntryCooldown.Cooldown(cfg.cooldownBars), u)
    {
      OpenedIsCooledDown(cfg, rows, bars, s, u);
    }
    if c[t] {
      EntryCooldown.RejectedOnlyWhenClose(c, EntryCooldown.Cooldown(cfg.cooldownBars), t);
    }
  }

  lemma StartedIsEntry(cfg: Settings, rows: seq<Row>, bars: seq<Bar>, s: Series, t: int)
    requires Shows(rows, bars, s)
    ensures Started(Long, cfg, bars, rows, t) == LongEntry(cfg, bars, s, t)
    ensures Started(Short, cfg, bars, rows, t) == ShortEntry(cfg, bars, s, t)
  {
    if 0 <= t < |bars| {
      SetUpIsCandidate(cfg, rows, bars, s, t);
      OpenedIsCooledDown(cfg, rows, bars, s, t);
    }
  }

  lemma AgainstIsChange(bars: seq<Bar>, t: int)
    ensures TurnsAgainst(Long, bars, t) == BearishChange(bars, t)
    ensures TurnsAgainst(Short, bars, t) == BullishChange(bars, t)
  {
  }

  lemma KernelEndIsDynamic(cfg: Settings, rows: seq<Row>, bars: seq<Bar>, s: Series, t: nat)
    requires Shows(rows, bars, s) && t < |bars| && !cfg.useKernelSmoothing
    ensures EndsOnKernel(Long, cfg, bars, rows, t) == LongDynamicExit(cfg, bars, s, t)
    ensures EndsOnKernel(Short, cfg, bars, rows, t) == ShortDynamicExit(cfg, bars, s, t)
  {
    LorentzExits.DynamicExitExactly(cfg, bars, s, t);
    LorentzExits.ShortDynamicExitExactly(cfg, bars, s, t);
    forall j: int
      ensures TurnsAgainst(Long, bars, j) == BearishChange(bars, j)
      ensures TurnsAgainst(Short, bars, j) == BullishChange(bars, j)
      ensures Started(Long, cfg, bars, rows, j) == LongEntry(cfg, bars, s, j)
      ensures Started(Short, cfg, bars, rows, j) == ShortEntry(cfg, bars, s, j)
    {
      AgainstIsChange(bars, j);
      StartedIsEntry(cfg, rows, bars, s, j);
    }
    LongKernelEnd(cfg, rows, bars, s, t);
    ShortKernelEnd(cfg, rows, bars, s, t);
  }

  lemma LongKernelEnd(cfg: Settings, rows: seq<Row>, bars: seq<Bar>, s: Series, t: nat)
    requires Fits(bars, s) && t < |bars|
    requires forall j: int :: TurnsAgainst(Long, bars, j) == BearishChange(bars, j)
    requires forall j: int :: Started(Long, cfg, bars, rows, j) == LongEntry(cfg, bars, s, j)
    ensures EndsOnKernel(Long, cfg, bars, rows, t)
            <==> BearishChange(bars, t) &&
                 exists e :: 0 <= e < t && LongEntry(cfg, bars, s, e) && LorentzExits.NoBearishChange(bars, e, t)
                             && LorentzExits.ChangeBefore(bars, e)
  {
    forall e: int
      ensures LorentzExits.NoBearishChange(bars, e, t) <==> forall g :: e <= g < t ==> !TurnsAgainst(Long, bars, g)
      ensures LorentzExits.ChangeBefore(bars, e) <==> exists g :: 0 <= g < e && TurnsAgainst(Long, bars, g)
    {
    }
  }

  lemma ShortKernelEnd(cfg: Settings, rows: seq<Row>, bars: seq<Bar>, s: Series, t: nat)
    requires Fits(bars, s) && t < |bars|
    requires forall j: int :: TurnsAgainst(Short, bars, j) == BullishChange(bars, j)
    requires forall j: int :: Started(Short, cfg, bars, rows, j) == ShortEntry(cfg, bars, s, j)
    ensures EndsOnKernel(Short, cfg, bars, rows, t)
            <==> BullishChange(bars, t) &&
                 exists e :: 0 <= e < t && ShortEntry(cfg, bars, s, e) && LorentzExits.NoBullishChange(bars, e, t)
                             && LorentzExits.BullishChangeBefore(bars, e)
  {
    forall e: int
      ensures LorentzExits.NoBullishChange(bars, e, t) <==> forall g :: e <= g < t ==> !TurnsAgainst(Short, bars, g)
      ensures LorentzExits.BullishChangeBefore(bars, e) <==> exists g :: 0 <= g < e && TurnsAgainst(Short, bars, g)
    {
    }
  }

  lemma FourBarEndIsStrict(cfg: Settings, rows: seq<Row>, bars: seq<Bar>, s: Series, t: nat)
    requires s == SeriesOf(cfg.core, bars, FirstBar(cfg.core, |bars|)) && Shows(rows, bars, s) && t < |bars|
    ensures EndsAfterFour(Long, cfg, bars, rows, t) == LongStrictExit(cfg, bars, s, t)
    ensures EndsAfterFour(Short, cfg, bars, rows, t) == ShortStrictExit(cfg, bars, s, t)
  {
    LorentzExits.StrictExitExactly(cfg, bars, t);
    StartedIsEntry(cfg, rows, bars, s, t - 4);
    NewlyBackedIsNew(cfg, rows, bars, s, t);
    forall j: int ensures Turns(rows, j) == Change(s.signals, j) {
      TurnIsChange(rows, bars, s, j);
    }
    assert LorentzExits.Unchanged(s.signals, t - 3, t) <==> forall j :: t - 3 <= j <= t ==> !Turns(rows, j);
  }

  function Predictions(rows: seq<Row>): (r: seq<int>)
    ensures |r| == |rows|
  {
    seq(|rows|, t requires 0 <= t < |rows| => rows[t].prediction)
  }

  /** The counter restarts at each turn and otherwise counts up, from one, or from zero in the mode of that name. */
  ghost predicate HeldFits(core: Config, rows: seq<Row>, t: nat)
    requires t < |rows|
  {
    rows[t].barsHeld == if t == 0 then if core.mode == BarsHeldStart0 then 0 else 1
                        else if Turns(rows, t) then 0 else rows[t - 1].barsHeld + 1
  }

  lemma FirstHeld(core: Config, bars: seq<Bar>, first: nat)
    requires bars != []
    ensures SeriesOf(core, bars, first).barsHeld[0] == if core.mode == BarsHeldStart0 then 0 else 1
  {
    LoopAppends(core, bars, first, 0);
    LoopIsIncremental(core, bars, first, 1, |bars|);
    assert Loop(core, bars, first, 1).barsHeld[0] == SeriesOf(core, bars, first).barsHeld[..1][0];
  }

  /**
   * Every row of a run follows from the predictions, the bars and the settings. The signal is the side of the last
   * prediction that counts; the counter restarts at its turns. A side starts when it is allowed, newly backed by the
   * signal and the trend tests, confirmed by the kernel, strong and steady enough, and out of the cooldown of every
   * earlier start. It ends as the settings say: on the kernel, or four bars after its start.
   */
  lemma RowsFollowPredictions(cfg: Settings, bars: seq<Bar>, t: nat)
    requires t < |bars|
    ensures var rows := Rows(cfg, bars);
            && SignalFits(cfg.core, bars, Predictions(rows), rows[t].signal, t)
            && HeldFits(cfg.core, rows, t)
            && (rows[t].startLong <==> cfg.allowLong && Started(Long, cfg, bars, rows, t))
            && (rows[t].startShort <==> cfg.allowShort && Started(Short, cfg, bars, rows, t))
            && (rows[t].endLong <==> Ended(Long, cfg, bars, rows, t))
            && (rows[t].endShort <==> Ended(Short, cfg, bars, rows, t))
  {
    var first, rows := FirstBar(cfg.core, |bars|), Rows(cfg, bars);
    var s := SeriesOf(cfg.core, bars, first);
    RowsShow(cfg, bars);
    assert Predictions(rows) == s.predictions;
    SignalsFollowPredictions(cfg.core, bars, first, t);
    CounterFits(cfg, bars, rows, s, first, t);
    StartedIsEntry(cfg, rows, bars, s, t);
    FourBarEndIsStrict(cfg, rows, bars, s, t);
    if !cfg.useKernelSmoothing {
      KernelEndIsDynamic(cfg, rows, bars, s, t);
    }
  }

  lemma CounterFits(cfg: Settings, bars: seq<Bar>, rows: seq<Row>, s: Series, first: nat, t: nat)
    requires s == SeriesOf(cfg.core, bars, first) && Shows(rows, bars, s) && t < |bars|
    ensures HeldFits(cfg.core, rows, t)
  {
    FirstHeld(cfg.core, bars, first);
    LorentzExits.LoopCountsHeld(cfg.core, bars, first, |bars|);
    TurnIsChange(rows, bars, s, t);
    if t > 0 {
      assert LorentzExits.HeldAt(s, t);
    }
  }
}
