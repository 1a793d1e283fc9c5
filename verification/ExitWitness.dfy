/** A frame of prices on which the early arm of the strict exit fires. */
module ExitWitness {
  import opened Options
  import opened Features
  import opened FeatureCausality
  import opened Neighbours
  import opened Lorentz
  import opened LorentzExits
  import opened NoRepainting
  import opened FrameLength
  import opened PriceFrames
  import opened PriceTurns
  import FrameWitnesses

  /** On bars that look alike, a store of one neighbour holds the last bar the modulo test accepted. */
  ghost predicate Remembers(bars: seq<Bar>, mode: Mode, s: Scan, k: nat)
    requires k <= |bars|
  {
    s.lastDistance <= 0.0 && (k > 0 ==> s.store.labels == [Label(bars, (k - 1) / 4 * 4, mode)])
  }

  lemma RemembersNext(cfg: Config, bars: seq<Bar>, current: nat, store: Store, k: nat)
    requires cfg.mode == Modulo0 && cfg.neighborsCount == 1 && WindowsHold(cfg, current)
    requires k <= current < |bars| && Alike(cfg, bars, current + 1) && Balanced(cfg, store)
    requires WindowLength(cfg, current) == current + 1
    requires Remembers(bars, cfg.mode, ScanTo(cfg, bars, current, store, k), k)
    ensures Remembers(bars, cfg.mode, ScanTo(cfg, bars, current, store, k + 1), k + 1)
  {
    var s := ScanTo(cfg, bars, current, store, k);
    WholeWindow(cfg, current);
    assert Between(cfg, bars, current, k) == Some(0.0);
    CandidateInWindow(cfg, bars, current, k, s.lastDistance);
    ScanStep(cfg, bars, current, store, k);
    if k % 4 == 0 {
      assert k / 4 * 4 == k;
    } else {
      assert (k - 1) / 4 == k / 4;
    }
  }

  /** So every bar predicts the label of the last bar the modulo test accepted. */
  lemma PredictsLastAccepted(cfg: Config, bars: seq<Bar>, t: nat)
    requires cfg.mode == Modulo0 && cfg.neighborsCount == 1 && WindowsHold(cfg, t)
    requires t < |bars| && Alike(cfg, bars, t + 1)
    ensures Loop(cfg, bars, 0, t + 1).predictions[t] == Label(bars, t / 4 * 4, cfg.mode)
  {
    var store := Loop(cfg, bars, 0, t).store;
    WholeWindow(cfg, t);
    RemembersWindow(cfg, bars, t, store, t + 1);
    NextPrediction(cfg, bars, 0, t);
    RememberedIsPredicted(bars, cfg.mode, ScanTo(cfg, bars, t, store, t + 1), t);
  }

  lemma RememberedIsPredicted(bars: seq<Bar>, mode: Mode, s: Scan, t: nat)
    requires t < |bars| && Remembers(bars, mode, s, t + 1)
    ensures Neighbours.Sum(s.store.labels) == Label(bars, t / 4 * 4, mode)
  {
    SumOfZerosAndOne(s.store.labels);
  }

  lemma RemembersWindow(cfg: Config, bars: seq<Bar>, current: nat, store: Store, k: nat)
    requires cfg.mode == Modulo0 && cfg.neighborsCount == 1 && WindowsHold(cfg, current)
    requires k <= current + 1 && current < |bars| && Alike(cfg, bars, current + 1) && Balanced(cfg, store)
    requires WindowLength(cfg, current) == current + 1
    ensures Remembers(bars, cfg.mode, ScanTo(cfg, bars, current, store, k), k)
  {
    for i := 0 to k
      invariant Remembers(bars, cfg.mode, ScanTo(cfg, bars, current, store, i), i)
    {
      RemembersNext(cfg, bars, current, store, i);
    }
  }

  /** Closes that fall at bar four and are back up at bar eight. */
  function Dip(): (closes: seq<real>)
    ensures |closes| == 10 && forall i :: 0 <= i < 10 ==> closes[i] == if 4 <= i < 8 then 10.0 else 20.0
  {
    seq(10, i requires 0 <= i => if 4 <= i < 8 then 10.0 else 20.0)
  }

  const ADX_OF_ONE := Definition(ADX, 1, 0)

  /** What else the classifier reads of those bars: all filters pass, and no trend test is in the way. */
  function DipRest(): (rest: seq<Bar>)
    ensures Sources(rest, Dip())
    ensures forall i :: 0 <= i < 10 ==> rest[i] == Bar(Dip()[i], [], true, true, true, true, true, None, None)
  {
    seq(10, i requires 0 <= i < 10 => Bar(Dip()[i], [], true, true, true, true, true, None, None))
  }

  /** On positive prices the directional index of length one is one at every bar. */
  lemma AdxOfOneStarts(closes: seq<real>, length: int)
    requires closes != [] && closes[0] > 0.0 && length == 1
    ensures DxColumn(PriceBars(closes), length, true)[0] == Some(100.0)
  {
    var bars := PriceBars(closes);
    SumsOfOne(bars, 0, length, true);
    FirstRange(closes, length);
    MovementsNotNegative(bars, 1, length, true);
    OneSidedDx(Movements(bars, 1, length, true));
  }

  lemma FirstRange(closes: seq<real>, length: int)
    requires closes != [] && closes[0] > 0.0 && length == 1
    ensures Movements(PriceBars(closes), 1, length, true).range == Some(closes[0])
  {
    DecayedAtLengthOne(0.0, length);
    assert Movements(PriceBars(closes), 0, length, true) == Movement(Some(0.0), 0.0, 0.0);
  }

  lemma AdxOfOneIsThere(closes: seq<real>, length: int, i: nat)
    requires i < |closes| && closes[0] > 0.0 && length == 1
    ensures NAdx(PriceBars(closes), length, true)[i] == Some(1.0)
  {
    var dx := DxColumn(PriceBars(closes), length, true);
    AdxOfOneStarts(closes, length);
    for j := 0 to i + 1
      invariant forall k :: 0 <= k < j ==> Rma(dx, length)[k].Some?
    {
      AverageOfOneStep(dx, j, length);
    }
    AdxOfOneIsOne(PriceBars(closes), length);
  }

  /** The frame the classifier receives of them: ten bars with the same feature. */
  ghost predicate Dips(core: Config, bars: seq<Bar>) {
    && |bars| == 10 && Alike(core, bars, 10)
    && (forall i :: 0 <= i < 10 ==> bars[i].source == Dip()[i] && bars[i].filterAll)
    && (forall i :: 0 <= i < 10 ==> bars[i].emaUp && bars[i].smaUp && bars[i].emaDown && bars[i].smaDown)
  }

  lemma DipFrame(core: Config, scale: real -> real, bars: seq<Bar>)
    requires Measures(core, scale) && Grows(scale) && Computable(PriceBars(Dip()), [ADX_OF_ONE])
    requires bars == Featured(PriceBars(Dip()), [ADX_OF_ONE], DipRest())
    ensures Dips(core, bars)
  {
    DipVectors(bars);
    forall i, j | 0 <= i < 10 && 0 <= j < 10 ensures Between(core, bars, i, j) == Some(0.0) {
      OnesAreTogether(core, scale, bars[i].features, bars[j].features);
    }
  }

  lemma DipVectors(bars: seq<Bar>)
    requires Computable(PriceBars(Dip()), [ADX_OF_ONE])
    requires bars == Featured(PriceBars(Dip()), [ADX_OF_ONE], DipRest())
    ensures |bars| == 10 && forall i :: 0 <= i < 10 ==> bars[i].features == [Some(1.0)]
  {
    forall i | 0 <= i < 10 ensures bars[i].features == [Some(1.0)] {
      AdxOfOneIsThere(Dip(), 1, i);
      assert bars[i].features[0] == FeatureSeries(PriceBars(Dip()), ADX_OF_ONE).value[i];
    }
  }

  lemma OnesAreTogether(core: Config, scale: real -> real, x: Neighbours.Features, y: Neighbours.Features)
    requires Measures(core, scale) && Grows(scale) && x == [Some(1.0)] == y
    ensures core.distance(x, y) == Some(0.0)
  {
    assert core.distance(x, y) == SumDistance(scale, x, y);
    assert SumDistance(scale, x[1..], y[1..]) == Some(0.0);
  }

  function DipSignal(t: int): int {
    if t < 4 then 0 else if t < 8 then 1 else -1
  }

  lemma DipLabel(core: Config, bars: seq<Bar>, t: nat)
    requires Dips(core, bars) && core.mode == Modulo0 && t < 10
    ensures Label(bars, t / 4 * 4, core.mode) == DipSignal(t)
  {
    assert t / 4 * 4 == if t < 4 then 0 else if t < 8 then 4 else 8;
  }

  lemma NextSignalIs(cfg: Config, bars: seq<Bar>, first: nat, t: nat)
    requires first <= t < |bars|
    ensures var s, next := Loop(cfg, bars, first, t), Loop(cfg, bars, first, t + 1);
            && next.signal == NextSignal(cfg, s.signal, next.predictions[t], bars[t].filterAll)
            && next.signals == s.signals + [next.signal]
  {
    LoopAppends(cfg, bars, first, t);
  }

  /** The settings of the witness: a history over the whole dip, one neighbour, no least magnitude. */
  ghost predicate Watches(core: Config) {
    core.mode == Modulo0 && core.neighborsCount == 1 && core.maxBarsBack >= 10 && core.minMagnitude <= 0.0
  }

  ghost predicate DipSignalled(s: State, n: nat) {
    |s.signals| == n && s.signal == DipSignal(n - 1) && forall t :: 0 <= t < n ==> s.signals[t] == DipSignal(t)
  }

  lemma DipStep(core: Config, bars: seq<Bar>, t: nat)
    requires Watches(core) && Dips(core, bars) && t < 10 && DipSignalled(Loop(core, bars, 0, t), t)
    ensures DipSignalled(Loop(core, bars, 0, t + 1), t + 1)
  {
    DipLabel(core, bars, t);
    PredictsLastAccepted(core, bars, t);
    NextSignalIs(core, bars, 0, t);
  }

  lemma DipSignals(core: Config, bars: seq<Bar>, n: nat)
    requires Watches(core) && Dips(core, bars) && n <= 10
    ensures DipSignalled(Loop(core, bars, 0, n), n)
  {
    for i := 0 to n
      invariant DipSignalled(Loop(core, bars, 0, i), i)
    {
      DipStep(core, bars, i);
    }
  }

  lemma DipSeries(core: Config, bars: seq<Bar>, first: nat)
    requires Watches(core) && Dips(core, bars) && first == 0
    ensures var s := SeriesOf(core, bars, first);
            CountsHeld(s) && s.signals == [0, 0, 0, 0, 1, 1, 1, 1, -1, -1]
  {
    LoopCountsHeld(core, bars, first, |bars|);
    DipSignals(core, bars, |bars|);
  }

  lemma DipFires(cfg: Settings, bars: seq<Bar>, first: nat)
    requires Watches(cfg.core) && Dips(cfg.core, bars) && first == 0
    requires cfg.persistenceBars == 2 && cfg.cooldownBars <= 0 && !cfg.useKernelFilter && !cfg.blockEarlyFlips
    ensures var s := SeriesOf(cfg.core, bars, first);
            s.barsHeld[9] == 1 && LongStrictExit(cfg, bars, s, 9)
  {
    DipSeries(cfg.core, bars, first);
    EarlyArmCase(cfg, bars, SeriesOf(cfg.core, bars, first));
  }

  /** With a persistence of two bars a long opened at bar five of the dip is left at bar nine, through the arm for
      positions held less than four bars. The only feature is the directional index of length one. */
  lemma EarlyArmFires(scale: real -> real) returns (cfg: Settings, bars: seq<Bar>)
    requires Grows(scale)
    ensures Measures(cfg.core, scale) && cfg.persistenceBars == 2
    ensures Computable(PriceBars(Dip()), [ADX_OF_ONE])
    ensures bars == Featured(PriceBars(Dip()), [ADX_OF_ONE], DipRest())
    ensures var s := SeriesOf(cfg.core, bars, FirstBar(cfg.core, |bars|));
            s.barsHeld[9] == 1 && LongStrictExit(cfg, bars, s, 9)
  {
    cfg := FrameWitnesses.WitnessSettings(Modulo0, 10, 1, scale).(persistenceBars := 2);
    bars := Featured(PriceBars(Dip()), [ADX_OF_ONE], DipRest());
    DipFrame(cfg.core, scale, bars);
    DipFires(cfg, bars, FirstBar(cfg.core, |bars|));
  }
}
