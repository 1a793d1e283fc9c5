/** No repainting: on frames the history covers, later bars never change earlier rows. */
module NoRepainting {
  import opened Options
  import opened Neighbours
  import opened Lorentz

  lemma LabelIgnoresFuture(bars: seq<Bar>, n: nat, i: nat, mode: Mode)
    requires i < n <= |bars| && LooksBack(mode)
    ensures Label(bars[..n], i, mode) == Label(bars, i, mode)
  {
  }

  lemma CandidateIgnoresFuture(cfg: Config, bars: seq<Bar>, n: nat, current: nat, relative: nat, lastDistance: real)
    requires current < n <= |bars| && WindowStart(cfg, current) + relative <= current && LooksBack(cfg.mode)
    ensures Candidate(cfg, bars[..n], current, relative, lastDistance)
        == Candidate(cfg, bars, current, relative, lastDistance)
  {
    LabelIgnoresFuture(bars, n, WindowStart(cfg, current) + relative, cfg.mode);
  }

  lemma ScanIgnoresFuture(cfg: Config, bars: seq<Bar>, n: nat, current: nat, store: Store, k: nat)
    requires current < n <= |bars| && k <= WindowLength(cfg, current) && LooksBack(cfg.mode)
    requires |store.indices| == |store.labels| == |store.distances| <= Limit(cfg)
    ensures ScanTo(cfg, bars[..n], current, store, k) == ScanTo(cfg, bars, current, store, k)
  {
    for i := 0 to k
      invariant ScanTo(cfg, bars[..n], current, store, i) == ScanTo(cfg, bars, current, store, i)
    {
      ScanStepIgnoresFuture(cfg, bars, n, current, store, i);
    }
  }

  lemma ScanStepIgnoresFuture(cfg: Config, bars: seq<Bar>, n: nat, current: nat, store: Store, k: nat)
    requires current < n <= |bars| && k < WindowLength(cfg, current) && LooksBack(cfg.mode)
    requires |store.indices| == |store.labels| == |store.distances| <= Limit(cfg)
    requires ScanTo(cfg, bars[..n], current, store, k) == ScanTo(cfg, bars, current, store, k)
    ensures ScanTo(cfg, bars[..n], current, store, k + 1) == ScanTo(cfg, bars, current, store, k + 1)
  {
    CandidateIgnoresFuture(cfg, bars, n, current, k, ScanTo(cfg, bars, current, store, k).lastDistance);
    ScanStep(cfg, bars, current, store, k);
    ScanStep(cfg, bars[..n], current, store, k);
  }

  lemma ScanStep(cfg: Config, bars: seq<Bar>, current: nat, store: Store, k: nat)
    requires current < |bars| && k < WindowLength(cfg, current)
    requires |store.indices| == |store.labels| == |store.distances| <= Limit(cfg)
    ensures var s := ScanTo(cfg, bars, current, store, k);
            var c := Candidate(cfg, bars, current, k, s.lastDistance);
            ScanTo(cfg, bars, current, store, k + 1) == if c.Some? then TakeIn(cfg, s, c.value) else s
  {
  }

  lemma NextBarIgnoresFuture(cfg: Config, bars: seq<Bar>, n: nat, first: nat, s: State)
    requires |s.signals| < n <= |bars| && |s.barsHeld| == |s.signals| && LooksBack(cfg.mode)
    requires |s.store.indices| == |s.store.labels| == |s.store.distances| <= Limit(cfg)
    ensures NextBar(cfg, bars[..n], first, s) == NextBar(cfg, bars, first, s)
  {
    var current := |s.signals|;
    ScanIgnoresFuture(cfg, bars, n, current, s.store, WindowLength(cfg, current));
    assert bars[..n][current] == bars[current];
  }

  lemma {:induction false} LoopIgnoresFuture(cfg: Config, bars: seq<Bar>, n: nat, first: nat, k: nat)
    requires k <= n <= |bars| && LooksBack(cfg.mode)
    ensures Loop(cfg, bars[..n], first, k) == Loop(cfg, bars, first, k)
  {
    if k > 0 {
      LoopIgnoresFuture(cfg, bars, n, first, k - 1);
      NextBarIgnoresFuture(cfg, bars, n, first, Loop(cfg, bars, first, k - 1));
    }
  }

  function Cut(s: Series, n: nat): Series
    requires n <= |s.predictions| && n <= |s.signals| && n <= |s.barsHeld|
  {
    Series(s.predictions[..n], s.signals[..n], s.barsHeld[..n])
  }

  /** The classifier's columns on a prefix are the prefix of its columns. */
  lemma SeriesIgnoresFuture(cfg: Config, bars: seq<Bar>, n: nat, first: nat)
    requires n <= |bars| && LooksBack(cfg.mode)
    ensures SeriesOf(cfg, bars[..n], first) == Cut(SeriesOf(cfg, bars, first), n)
  {
    LoopIgnoresFuture(cfg, bars, n, first, n);
    LoopIsIncremental(cfg, bars, first, n, |bars|);
  }

  lemma ChangeIgnoresFuture(signals: seq<int>, n: nat, t: int)
    requires n <= |signals| && t < n
    ensures Change(signals[..n], t) == Change(signals, t)
    ensures EverChanged(signals[..n], t) == EverChanged(signals, t)
    ensures EarlyFlip(signals[..n], t) == EarlyFlip(signals, t)
  {
    if EverChanged(signals, t) {
      var j :| 0 < j <= t && Change(signals, j);
      assert Change(signals[..n], j);
    }
    if EverChanged(signals[..n], t) {
      var j :| 0 < j <= t && Change(signals[..n], j);
      assert Change(signals, j);
    }
  }

  lemma HeldIgnoresFuture(bars: seq<Bar>, s: Series, n: nat, k: int, t: int)
    requires Fits(bars, s) && t < n <= |bars|
    ensures BuysHeld(bars[..n], Cut(s, n), k, t) == BuysHeld(bars, s, k, t)
    ensures SellsHeld(bars[..n], Cut(s, n), k, t) == SellsHeld(bars, s, k, t)
  {
    forall j | j <= t ensures Buy(bars[..n], Cut(s, n), j) == Buy(bars, s, j)
                              && Sell(bars[..n], Cut(s, n), j) == Sell(bars, s, j)
                              && EverChanged(s.signals[..n], j) == EverChanged(s.signals, j) {
      ChangeIgnoresFuture(s.signals, n, j);
    }
  }

  lemma NewIgnoresFuture(cfg: Settings, bars: seq<Bar>, s: Series, n: nat, t: int)
    requires Fits(bars, s) && t < n <= |bars|
    ensures NewBuy(cfg, bars[..n], Cut(s, n), t) == NewBuy(cfg, bars, s, t)
    ensures NewSell(cfg, bars[..n], Cut(s, n), t) == NewSell(cfg, bars, s, t)
  {
    ChangeIgnoresFuture(s.signals, n, t);
    HeldIgnoresFuture(bars, s, n, cfg.persistenceBars, t);
    HeldIgnoresFuture(bars, s, n, cfg.persistenceBars, t - 1);
  }

  lemma KernelIgnoresFuture(cfg: Settings, bars: seq<Bar>, n: nat, t: int)
    requires t < n <= |bars|
    ensures BearishChange(bars[..n], t) == BearishChange(bars, t)
    ensures BullishChange(bars[..n], t) == BullishChange(bars, t)
    ensures AlertBearish(cfg, bars[..n], t) == AlertBearish(cfg, bars, t)
    ensures AlertBullish(cfg, bars[..n], t) == AlertBullish(cfg, bars, t)
    ensures t >= 0 ==> BullishKernel(cfg, bars[..n], t) == BullishKernel(cfg, bars, t)
    ensures t >= 0 ==> BearishKernel(cfg, bars[..n], t) == BearishKernel(cfg, bars, t)
  {
  }

  lemma CandidatesIgnoreFuture(cfg: Settings, bars: seq<Bar>, s: Series, n: nat)
    requires Fits(bars, s) && n <= |bars|
    ensures LongCandidates(cfg, bars[..n], Cut(s, n)) == LongCandidates(cfg, bars, s)[..n]
    ensures ShortCandidates(cfg, bars[..n], Cut(s, n)) == ShortCandidates(cfg, bars, s)[..n]
  {
    forall t: nat | t < n
      ensures LongCandidate(cfg, bars[..n], Cut(s, n), t) == LongCandidate(cfg, bars, s, t)
      ensures ShortCandidate(cfg, bars[..n], Cut(s, n), t) == ShortCandidate(cfg, bars, s, t)
    {
      NewIgnoresFuture(cfg, bars, s, n, t);
      KernelIgnoresFuture(cfg, bars, n, t);
      ChangeIgnoresFuture(s.signals, n, t);
    }
  }

  lemma EntriesIgnoreFuture(cfg: Settings, bars: seq<Bar>, s: Series, n: nat)
    requires Fits(bars, s) && n <= |bars|
    ensures LongEntries(cfg, bars[..n], Cut(s, n)) == LongEntries(cfg, bars, s)[..n]
    ensures ShortEntries(cfg, bars[..n], Cut(s, n)) == ShortEntries(cfg, bars, s)[..n]
  {
    CandidatesIgnoreFuture(cfg, bars, s, n);
    var all := EntryCooldown.Candidates(LongCandidates(cfg, bars, s), ShortCandidates(cfg, bars, s));
    var cut := EntryCooldown.Candidates(LongCandidates(cfg, bars[..n], Cut(s, n)),
        ShortCandidates(cfg, bars[..n], Cut(s, n)));
    assert cut == all[..n];
    forall t: nat | t < n
      ensures LongEntry(cfg, bars[..n], Cut(s, n), t) == LongEntry(cfg, bars, s, t)
      ensures ShortEntry(cfg, bars[..n], Cut(s, n), t) == ShortEntry(cfg, bars, s, t)
    {
      EntryCooldown.PrefixSameLast(cut, all, EntryCooldown.Cooldown(cfg.cooldownBars), t);
      assert LongCandidates(cfg, bars[..n], Cut(s, n))[t] == LongCandidates(cfg, bars, s)[t];
      assert ShortCandidates(cfg, bars[..n], Cut(s, n))[t] == ShortCandidates(cfg, bars, s)[t];
    }
  }

  lemma {:induction false} BarsSinceIgnoresFuture(condition: seq<bool>, n: nat, t: nat)
    requires t < n <= |condition|
    ensures BarsSince(condition[..n], t) == BarsSince(condition, t)
  {
    if t > 0 { BarsSinceIgnoresFuture(condition, n, t - 1); }
  }

  lemma ArmedIgnoresFuture(exits: seq<bool>, entries: seq<bool>, n: nat, t: int)
    requires |exits| == |entries| && t < n <= |exits|
    ensures ExitArmed(exits[..n], entries[..n], t) == ExitArmed(exits, entries, t)
  {
    if 0 <= t {
      BarsSinceIgnoresFuture(exits, n, t);
      BarsSinceIgnoresFuture(entries, n, t);
    }
  }

  lemma DynamicExitsIgnoreFuture(cfg: Settings, bars: seq<Bar>, s: Series, n: nat, t: nat)
    requires Fits(bars, s) && t < n <= |bars|
    ensures LongDynamicExit(cfg, bars[..n], Cut(s, n), t) == LongDynamicExit(cfg, bars, s, t)
    ensures ShortDynamicExit(cfg, bars[..n], Cut(s, n), t) == ShortDynamicExit(cfg, bars, s, t)
  {
    EntriesIgnoreFuture(cfg, bars, s, n);
    KernelIgnoresFuture(cfg, bars, n, t);
    forall j: nat | j < n
      ensures AlertBearish(cfg, bars[..n], j) == AlertBearish(cfg, bars, j)
      ensures AlertBullish(cfg, bars[..n], j) == AlertBullish(cfg, bars, j)
    {
      KernelIgnoresFuture(cfg, bars, n, j);
    }
    assert BearishAlerts(cfg, bars[..n]) == BearishAlerts(cfg, bars)[..n];
    assert BullishAlerts(cfg, bars[..n]) == BullishAlerts(cfg, bars)[..n];
    ArmedIgnoresFuture(BearishAlerts(cfg, bars), LongEntries(cfg, bars, s), n, t - 1);
    ArmedIgnoresFuture(BullishAlerts(cfg, bars), ShortEntries(cfg, bars, s), n, t - 1);
  }

  lemma StrictExitsIgnoreFuture(cfg: Settings, bars: seq<Bar>, s: Series, n: nat, t: nat)
    requires Fits(bars, s) && t < n <= |bars|
    ensures LongStrictExit(cfg, bars[..n], Cut(s, n), t) == LongStrictExit(cfg, bars, s, t)
    ensures ShortStrictExit(cfg, bars[..n], Cut(s, n), t) == ShortStrictExit(cfg, bars, s, t)
  {
    EntriesIgnoreFuture(cfg, bars, s, n);
    NewIgnoresFuture(cfg, bars, s, n, t);
    if t >= 4 {
      assert LongEntries(cfg, bars[..n], Cut(s, n))[t - 4] == LongEntries(cfg, bars, s)[t - 4];
      assert ShortEntries(cfg, bars[..n], Cut(s, n))[t - 4] == ShortEntries(cfg, bars, s)[t - 4];
    }
  }

  lemma ExitsIgnoreFuture(cfg: Settings, bars: seq<Bar>, s: Series, n: nat)
    requires Fits(bars, s) && n <= |bars|
    ensures LongExits(cfg, bars[..n], Cut(s, n)) == LongExits(cfg, bars, s)[..n]
    ensures ShortExits(cfg, bars[..n], Cut(s, n)) == ShortExits(cfg, bars, s)[..n]
  {
    forall t: nat | t < n
      ensures LongExit(cfg, bars[..n], Cut(s, n), t) == LongExit(cfg, bars, s, t)
      ensures ShortExit(cfg, bars[..n], Cut(s, n), t) == ShortExit(cfg, bars, s, t)
    {
      DynamicExitsIgnoreFuture(cfg, bars, s, n, t);
      StrictExitsIgnoreFuture(cfg, bars, s, n, t);
    }
  }

  // ---------------------------------------------------------------- where the loop starts

  /** The first index the mode's modulo test accepts. */
  function FirstAccepted(mode: Mode): nat {
    match mode
    case MarkerTuned => 0
    case Modulo0 => 0
    case Modulo2 => 2
    case Modulo3 => 3
    case _ => 1
  }

  /** The first accepted index whose label, looking back four bars, can be anything but zero. */
  function FirstLabelled(mode: Mode): nat {
    FirstAccepted(mode) + 4
  }

  /** The first bar that can accept an index with such a label. */
  function FirstLabelledBar(mode: Mode, maxBarsBack: int): nat {
    if !IsRolling(mode) then FirstLabelled(mode) else if maxBarsBack <= 4 then 4 else 5
  }

  /** No bar of the frame can accept an index with a label: the history is too short, or the labels look ahead
      over the end of the frame. */
  predicate Muted(mode: Mode, maxBarsBack: int, length: nat) {
    if LooksBack(mode) then maxBarsBack <= if IsRolling(mode) then FirstAccepted(mode) else FirstLabelled(mode)
    else length <= 5 || maxBarsBack <= 1
  }

  /** Lengths for which it does not matter where the loop starts, whatever the feature vectors. */
  predicate SafeLength(mode: Mode, maxBarsBack: int, length: nat) {
    || Muted(mode, maxBarsBack, length)
    || (LooksBack(mode) && length <= maxBarsBack + 1 + FirstAccepted(mode))
    || (IsRolling(mode) && maxBarsBack == 2 && length <= 7)
  }

  /** The distance the classifier sees between two bars. */
  function Between(cfg: Config, bars: seq<Bar>, current: nat, index: nat): Option<real>
    requires current < |bars| && index < |bars|
  {
    cfg.distance(bars[current].features, bars[index].features)
  }

  /** Bar zero has no distance to any bar. */
  ghost predicate StartsBlind(cfg: Config, bars: seq<Bar>) {
    forall i :: 0 < |bars| && 0 <= i < |bars| ==> Between(cfg, bars, i, 0).None?
  }

  /** No two bars are apart. */
  ghost predicate Level(cfg: Config, bars: seq<Bar>) {
    forall i, j :: 0 <= i < |bars| && 0 <= j < |bars| ==> Between(cfg, bars, i, j) in {None, Some(0.0)}
  }

  /** The same for given settings and bars: with at most two neighbours a skipped bar only matters once it has a
      label, and where bar zero is accepted by the modulo test it may still be out of reach or all the same. */
  ghost predicate SafeFrame(cfg: Config, bars: seq<Bar>, length: nat) {
    || SafeLength(cfg.mode, cfg.maxBarsBack, length)
    || (LooksBack(cfg.mode) && Limit(cfg) <= 2
        && length <= cfg.maxBarsBack + 1 + FirstLabelledBar(cfg.mode, cfg.maxBarsBack))
    || (FirstAccepted(cfg.mode) == 0 && length <= cfg.maxBarsBack + 5 && (StartsBlind(cfg, bars) || Level(cfg, bars)))
  }

  lemma SafePrefix(cfg: Config, bars: seq<Bar>, n: nat, length: nat)
    requires n <= |bars| && SafeFrame(cfg, bars, length)
    ensures SafeFrame(cfg, bars[..n], length)
  {
    forall i, j | 0 <= i < n && 0 <= j < n ensures Between(cfg, bars[..n], i, j) == Between(cfg, bars, i, j) {
    }
  }

  lemma AcceptedIndices(mode: Mode, index: nat)
    requires AcceptModulo(index, mode)
    ensures FirstAccepted(mode) <= index
    ensures index < FirstLabelled(mode) ==> index < 4
    ensures 0 < index < 4 ==> FirstAccepted(mode) > 0
  {
  }

  // ---------------------------------------------------------------- bars that accept nothing

  /** The first bar that can accept anything. */
  ghost function FirstHeard(cfg: Config, bars: seq<Bar>): nat {
    if FirstAccepted(cfg.mode) == 0 && StartsBlind(cfg, bars) then 4 else FirstAccepted(cfg.mode)
  }

  /** Bars before it leave the store empty. */
  lemma {:induction false} EarlyScansAreEmpty(cfg: Config, bars: seq<Bar>, current: nat, k: nat)
    requires current < |bars| && current < FirstHeard(cfg, bars) && k <= WindowLength(cfg, current)
    ensures ScanTo(cfg, bars, current, START.store, k) == Scan(START.store, -1.0, [])
  {
    if k > 0 {
      EarlyScansAreEmpty(cfg, bars, current, k - 1);
      EarlyCandidate(cfg, bars, current, k - 1);
    }
  }

  lemma EarlyCandidate(cfg: Config, bars: seq<Bar>, current: nat, relative: nat)
    requires current < |bars| && current < FirstHeard(cfg, bars) && relative < WindowLength(cfg, current)
    ensures Candidate(cfg, bars, current, relative, -1.0) == None
  {
    if FirstAccepted(cfg.mode) == 0 {
      assert Between(cfg, bars, current, 0).None?;
    }
  }

  lemma EarlyBarSame(cfg: Config, bars: seq<Bar>, first: nat, s: State)
    requires |s.signals| < |bars| && |s.barsHeld| == |s.signals| && |s.signals| < FirstHeard(cfg, bars)
    requires s.store == START.store && s.prediction == 0
    ensures NextBar(cfg, bars, first, s) == NextBar(cfg, bars, 0, s)
    ensures NextBar(cfg, bars, 0, s).store == START.store && NextBar(cfg, bars, 0, s).prediction == 0
  {
    EarlyScansAreEmpty(cfg, bars, |s.signals|, WindowLength(cfg, |s.signals|));
  }

  lemma {:induction false} EarlyLoopIsEmpty(cfg: Config, bars: seq<Bar>, n: nat)
    requires n <= |bars| && n <= FirstHeard(cfg, bars)
    ensures Loop(cfg, bars, 0, n).store == START.store && Loop(cfg, bars, 0, n).prediction == 0
  {
    if n > 0 {
      EarlyLoopIsEmpty(cfg, bars, n - 1);
      EarlyBarSame(cfg, bars, 0, Loop(cfg, bars, 0, n - 1));
    }
  }

  /** So it does not matter which of those bars the loop works on. */
  lemma EarlyStartSame(cfg: Config, bars: seq<Bar>, first: nat, n: nat)
    requires n <= |bars| && first <= FirstHeard(cfg, bars)
    ensures Loop(cfg, bars, first, n) == Loop(cfg, bars, 0, n)
  {
    for i := 0 to n
      invariant Loop(cfg, bars, first, i) == Loop(cfg, bars, 0, i)
    {
      EarlyStepSame(cfg, bars, first, i);
    }
  }

  lemma EarlyStepSame(cfg: Config, bars: seq<Bar>, first: nat, t: nat)
    requires t < |bars| && first <= FirstHeard(cfg, bars) && Loop(cfg, bars, first, t) == Loop(cfg, bars, 0, t)
    ensures Loop(cfg, bars, first, t + 1) == Loop(cfg, bars, 0, t + 1)
  {
    LoopAppends(cfg, bars, first, t);
    LoopAppends(cfg, bars, 0, t);
    if t < FirstHeard(cfg, bars) {
      EarlyLoopIsEmpty(cfg, bars, t);
      EarlyBarSame(cfg, bars, first, Loop(cfg, bars, 0, t));
    }
  }

  // ---------------------------------------------------------------- frames without a label

  ghost predicate NoLabels(store: Store) {
    forall i :: 0 <= i < |store.labels| ==> store.labels[i] == 0
  }

  /** On a muted frame nothing with a label is ever accepted. */
  lemma MutedScans(cfg: Config, bars: seq<Bar>, current: nat, store: Store, k: nat)
    requires current < |bars| && k <= WindowLength(cfg, current) && Muted(cfg.mode, cfg.maxBarsBack, |bars|)
    requires |store.indices| == |store.labels| == |store.distances| <= Limit(cfg) && NoLabels(store)
    ensures NoLabels(ScanTo(cfg, bars, current, store, k).store)
  {
    for i := 0 to k
      invariant NoLabels(ScanTo(cfg, bars, current, store, i).store)
    {
      MutedCandidate(cfg, bars, current, i, ScanTo(cfg, bars, current, store, i).lastDistance);
      ScanStep(cfg, bars, current, store, i);
    }
  }

  lemma MutedCandidate(cfg: Config, bars: seq<Bar>, current: nat, relative: nat, lastDistance: real)
    requires current < |bars| && relative < WindowLength(cfg, current) && Muted(cfg.mode, cfg.maxBarsBack, |bars|)
    ensures var c := Candidate(cfg, bars, current, relative, lastDistance);
            c.Some? ==> c.value.y == 0
  {
    var c := Candidate(cfg, bars, current, relative, lastDistance);
    if c.Some? {
      AcceptedIndices(cfg.mode, if IsRolling(cfg.mode) then relative else c.value.index);
    }
  }

  lemma {:induction false} SumOfZeros(values: seq<int>)
    requires forall i :: 0 <= i < |values| ==> values[i] == 0
    ensures Sum(values) == 0
  {
    if values != [] { SumOfZeros(values[..|values| - 1]); }
  }

  /** The columns of a loop that never predicts anything. */
  function IdleSeries(mode: Mode, n: nat): (s: Series)
    ensures |s.predictions| == |s.signals| == |s.barsHeld| == n
  {
    Series(seq(n, _ => 0), seq(n, _ => 0), seq(n, t => t + if mode == BarsHeldStart0 then 0 else 1))
  }

  ghost predicate Idle(cfg: Config, s: State, n: nat) {
    && NoLabels(s.store) && s.prediction == 0 == s.signal
    && |s.predictions| == n && Series(s.predictions, s.signals, s.barsHeld) == IdleSeries(cfg.mode, n)
  }

  lemma MutedBar(cfg: Config, bars: seq<Bar>, first: nat, t: nat)
    requires t < |bars| && Muted(cfg.mode, cfg.maxBarsBack, |bars|) && Idle(cfg, Loop(cfg, bars, first, t), t)
    ensures Idle(cfg, Loop(cfg, bars, first, t + 1), t + 1)
  {
    var s := Loop(cfg, bars, first, t);
    MutedScans(cfg, bars, t, s.store, WindowLength(cfg, t));
    SumOfZeros(ScanTo(cfg, bars, t, s.store, WindowLength(cfg, t)).store.labels);
    LoopAppends(cfg, bars, first, t);
    IdleGrows(cfg.mode, t);
  }

  lemma IdleGrows(mode: Mode, t: nat)
    ensures var s, next := IdleSeries(mode, t), IdleSeries(mode, t + 1);
            && next.predictions == s.predictions + [0] && next.signals == s.signals + [0]
            && next.barsHeld == s.barsHeld + [t + if mode == BarsHeldStart0 then 0 else 1]
  {
  }

  lemma MutedSeries(cfg: Config, bars: seq<Bar>, first: nat)
    requires Muted(cfg.mode, cfg.maxBarsBack, |bars|)
    ensures SeriesOf(cfg, bars, first) == IdleSeries(cfg.mode, |bars|)
  {
    for i := 0 to |bars|
      invariant Idle(cfg, Loop(cfg, bars, first, i), i)
    {
      MutedBar(cfg, bars, first, i);
    }
  }

  // ---------------------------------------------------------------- stores that differ by neighbours without a label

  /** The one store holds what the other does, after a number of neighbours without a label. */
  ghost predicate Padded(a: Store, b: Store) {
    PaddedBy(a.labels, b.labels)
  }

  ghost predicate PaddedBy(a: seq<int>, b: seq<int>) {
    |a| <= |b| && b[|b| - |a|..] == a && forall i :: 0 <= i < |b| - |a| ==> b[i] == 0
  }

  lemma {:induction false} PaddedSum(zeros: seq<int>, labels: seq<int>)
    requires forall i :: 0 <= i < |zeros| ==> zeros[i] == 0
    ensures Sum(zeros + labels) == Sum(labels)
  {
    if labels == [] {
      assert zeros + labels == zeros;
      SumOfZeros(zeros);
    } else {
      assert (zeros + labels)[..|zeros + labels| - 1] == zeros + labels[..|labels| - 1];
      PaddedSum(zeros, labels[..|labels| - 1]);
    }
  }

  lemma PaddedPredicts(a: Store, b: Store)
    requires Padded(a, b)
    ensures Sum(a.labels) == Sum(b.labels)
  {
    var pad := |b.labels| - |a.labels|;
    PaddedSum(b.labels[..pad], a.labels);
    assert b.labels == b.labels[..pad] + a.labels;
  }

  lemma PaddedTakeIn(cfg: Config, a: Scan, b: Scan, n: Neighbour)
    requires |a.store.indices| == |a.store.labels| == |a.store.distances| <= Limit(cfg)
    requires |b.store.indices| == |b.store.labels| == |b.store.distances| <= Limit(cfg)
    requires Padded(a.store, b.store)
    ensures Padded(TakeIn(cfg, a, n).store, TakeIn(cfg, b, n).store)
    ensures Limit(cfg) <= 2 ==> TakeIn(cfg, a, n).lastDistance == n.distance == TakeIn(cfg, b, n).lastDistance
  {
    PaddedLabels(a.store.labels, b.store.labels, n.y, Limit(cfg));
    TakeInKeeps(cfg, a, n);
    TakeInKeeps(cfg, b, n);
  }

  lemma TakeInKeeps(cfg: Config, s: Scan, n: Neighbour)
    requires |s.store.indices| == |s.store.labels| == |s.store.distances| <= Limit(cfg)
    ensures TakeIn(cfg, s, n).store.labels == Kept(s.store.labels, n.y, Limit(cfg))
    ensures Limit(cfg) <= 2 ==> TakeIn(cfg, s, n).lastDistance == n.distance
  {
  }

  lemma PaddedLabels(a: seq<int>, b: seq<int>, y: int, limit: nat)
    requires PaddedBy(a, b) && |b| <= limit
    ensures PaddedBy(Kept(a, y, limit), Kept(b, y, limit))
  {
    var pad := |b| - |a|;
    assert (b + [y])[pad..] == a + [y];
    if |b| == limit && |a| < limit {
      assert (b + [y])[1..][pad - 1..] == (b + [y])[pad..];
    }
  }

  function Kept(labels: seq<int>, y: int, limit: nat): seq<int> {
    if |labels| + 1 > limit then (labels + [y])[1..] else labels + [y]
  }

  /** With at most two neighbours the scan decides the same on both. */
  lemma {:induction false} FewScan(cfg: Config, bars: seq<Bar>, current: nat, a: Store, b: Store, k: nat)
    requires current < |bars| && k <= WindowLength(cfg, current) && Limit(cfg) <= 2
    requires |a.indices| == |a.labels| == |a.distances| <= Limit(cfg)
    requires |b.indices| == |b.labels| == |b.distances| <= Limit(cfg) && Padded(a, b)
    ensures var x, y := ScanTo(cfg, bars, current, a, k), ScanTo(cfg, bars, current, b, k);
            Padded(x.store, y.store) && x.lastDistance == y.lastDistance
  {
    if k > 0 {
      FewScan(cfg, bars, current, a, b, k - 1);
      var x, y := ScanTo(cfg, bars, current, a, k - 1), ScanTo(cfg, bars, current, b, k - 1);
      var c := Candidate(cfg, bars, current, k - 1, x.lastDistance);
      if c.Some? {
        PaddedTakeIn(cfg, x, y, c.value);
      }
    }
  }

  ghost predicate ZeroDistances(store: Store) {
    forall i :: 0 <= i < |store.distances| ==> store.distances[i] == 0.0
  }

  lemma LevelTakeIn(cfg: Config, s: Scan, n: Neighbour)
    requires |s.store.indices| == |s.store.labels| == |s.store.distances| <= Limit(cfg)
    requires ZeroDistances(s.store) && n.distance == 0.0
    ensures ZeroDistances(TakeIn(cfg, s, n).store) && TakeIn(cfg, s, n).lastDistance == 0.0
  {
  }

  ghost predicate LevelKin(x: Scan, y: Scan) {
    && Padded(x.store, y.store) && ZeroDistances(x.store) && ZeroDistances(y.store)
    && x.lastDistance <= 0.0 && y.lastDistance <= 0.0
  }

  lemma LevelStep(cfg: Config, bars: seq<Bar>, current: nat, a: Store, b: Store, k: nat)
    requires current < |bars| && k < WindowLength(cfg, current) && Level(cfg, bars)
    requires |a.indices| == |a.labels| == |a.distances| <= Limit(cfg)
    requires |b.indices| == |b.labels| == |b.distances| <= Limit(cfg)
    requires LevelKin(ScanTo(cfg, bars, current, a, k), ScanTo(cfg, bars, current, b, k))
    ensures LevelKin(ScanTo(cfg, bars, current, a, k + 1), ScanTo(cfg, bars, current, b, k + 1))
  {
    var x, y := ScanTo(cfg, bars, current, a, k), ScanTo(cfg, bars, current, b, k);
    LevelCandidate(cfg, bars, current, k, x.lastDistance, y.lastDistance);
    ScanStep(cfg, bars, current, a, k);
    ScanStep(cfg, bars, current, b, k);
    var c := Candidate(cfg, bars, current, k, x.lastDistance);
    if c.Some? {
      LevelTakesIn(cfg, x, y, c.value);
    }
  }

  lemma LevelCandidate(cfg: Config, bars: seq<Bar>, current: nat, relative: nat, x: real, y: real)
    requires current < |bars| && relative < WindowLength(cfg, current) && Level(cfg, bars) && x <= 0.0 && y <= 0.0
    ensures var c := Candidate(cfg, bars, current, relative, x);
            c == Candidate(cfg, bars, current, relative, y) && (c.Some? ==> c.value.distance == 0.0)
  {
    assert Between(cfg, bars, current, WindowStart(cfg, current) + relative) in {None, Some(0.0)};
  }

  lemma LevelTakesIn(cfg: Config, x: Scan, y: Scan, n: Neighbour)
    requires Balanced(cfg, x.store) && Balanced(cfg, y.store) && LevelKin(x, y) && n.distance == 0.0
    ensures LevelKin(TakeIn(cfg, x, n), TakeIn(cfg, y, n))
  {
    PaddedTakeIn(cfg, x, y, n);
    LevelTakeIn(cfg, x, n);
    LevelTakeIn(cfg, y, n);
  }

  /** The same where no two bars are apart. */
  lemma LevelScan(cfg: Config, bars: seq<Bar>, current: nat, a: Store, b: Store, k: nat)
    requires current < |bars| && k <= WindowLength(cfg, current) && Level(cfg, bars)
    requires |a.indices| == |a.labels| == |a.distances| <= Limit(cfg) && ZeroDistances(a)
    requires |b.indices| == |b.labels| == |b.distances| <= Limit(cfg) && ZeroDistances(b) && Padded(a, b)
    ensures LevelKin(ScanTo(cfg, bars, current, a, k), ScanTo(cfg, bars, current, b, k))
  {
    for i := 0 to k
      invariant LevelKin(ScanTo(cfg, bars, current, a, i), ScanTo(cfg, bars, current, b, i))
    {
      LevelStep(cfg, bars, current, a, b, i);
    }
  }

  /** In a rolling window of two only the bar itself can be accepted. */
  lemma WindowOfTwo(cfg: Config, bars: seq<Bar>, current: nat, store: Store)
    requires current < |bars| && IsRolling(cfg.mode) && cfg.maxBarsBack == 2
    requires |store.indices| == |store.labels| == |store.distances| <= Limit(cfg)
    ensures WindowStart(cfg, current) + 1 <= current + 1
    ensures ScanTo(cfg, bars, current, store, WindowLength(cfg, current))
            == if current > 0 && Candidate(cfg, bars, current, 1, -1.0).Some?
               then TakeIn(cfg, Scan(store, -1.0, []), Candidate(cfg, bars, current, 1, -1.0).value)
               else Scan(store, -1.0, [])
  {
    var one := ScanTo(cfg, bars, current, store, 1);
    assert ScanTo(cfg, bars, current, store, 0) == Scan(store, -1.0, []);
    assert Candidate(cfg, bars, current, 0, -1.0) == None;
    assert one == Scan(store, -1.0, []);
    if current > 0 {
      assert WindowLength(cfg, current) == 2;
    }
  }

  lemma PairScan(cfg: Config, bars: seq<Bar>, current: nat, a: Store, b: Store)
    requires current < |bars| && IsRolling(cfg.mode) && cfg.maxBarsBack == 2
    requires |a.indices| == |a.labels| == |a.distances| <= Limit(cfg)
    requires |b.indices| == |b.labels| == |b.distances| <= Limit(cfg) && Padded(a, b)
    ensures Padded(ScanTo(cfg, bars, current, a, WindowLength(cfg, current)).store,
                   ScanTo(cfg, bars, current, b, WindowLength(cfg, current)).store)
  {
    WindowOfTwo(cfg, bars, current, a);
    WindowOfTwo(cfg, bars, current, b);
    if current > 0 && Candidate(cfg, bars, current, 1, -1.0).Some? {
      PaddedTakeIn(cfg, Scan(a, -1.0, []), Scan(b, -1.0, []), Candidate(cfg, bars, current, 1, -1.0).value);
    }
  }

  /** The store does not steer the scan. */
  ghost predicate Unsteered(cfg: Config, bars: seq<Bar>) {
    Level(cfg, bars) || Limit(cfg) <= 2 || (IsRolling(cfg.mode) && cfg.maxBarsBack == 2)
  }

  /** Stores of two loops that started at different bars. */
  ghost predicate Kin(cfg: Config, bars: seq<Bar>, a: Store, b: Store) {
    Padded(a, b) && (Level(cfg, bars) ==> ZeroDistances(a) && ZeroDistances(b))
  }

  lemma KinScan(cfg: Config, bars: seq<Bar>, current: nat, a: Store, b: Store)
    requires current < |bars| && Unsteered(cfg, bars) && Kin(cfg, bars, a, b)
    requires |a.indices| == |a.labels| == |a.distances| <= Limit(cfg)
    requires |b.indices| == |b.labels| == |b.distances| <= Limit(cfg)
    ensures Kin(cfg, bars, ScanTo(cfg, bars, current, a, WindowLength(cfg, current)).store,
                ScanTo(cfg, bars, current, b, WindowLength(cfg, current)).store)
  {
    if Level(cfg, bars) {
      LevelScan(cfg, bars, current, a, b, WindowLength(cfg, current));
    } else if Limit(cfg) <= 2 {
      FewScan(cfg, bars, current, a, b, WindowLength(cfg, current));
    } else {
      PairScan(cfg, bars, current, a, b);
    }
  }

  /** Bars that early accept only neighbours without a label. */
  lemma EarlyScanHasNoLabels(cfg: Config, bars: seq<Bar>, current: nat, store: Store, k: nat)
    requires current < |bars| && k <= WindowLength(cfg, current) && LooksBack(cfg.mode)
    requires current < FirstLabelledBar(cfg.mode, cfg.maxBarsBack)
    requires |store.indices| == |store.labels| == |store.distances| <= Limit(cfg) && NoLabels(store)
    ensures NoLabels(ScanTo(cfg, bars, current, store, k).store)
  {
    for i := 0 to k
      invariant NoLabels(ScanTo(cfg, bars, current, store, i).store)
    {
      EarlyCandidateIsUnlabelled(cfg, bars, current, i, ScanTo(cfg, bars, current, store, i).lastDistance);
      ScanStep(cfg, bars, current, store, i);
    }
  }

  lemma EarlyCandidateIsUnlabelled(cfg: Config, bars: seq<Bar>, current: nat, relative: nat, lastDistance: real)
    requires current < |bars| && relative < WindowLength(cfg, current) && LooksBack(cfg.mode)
    requires current < FirstLabelledBar(cfg.mode, cfg.maxBarsBack)
    ensures var c := Candidate(cfg, bars, current, relative, lastDistance);
            c.Some? ==> c.value.y == 0
  {
    var c := Candidate(cfg, bars, current, relative, lastDistance);
    if c.Some? && !IsRolling(cfg.mode) {
      AcceptedIndices(cfg.mode, c.value.index);
    }
  }

  /** A store that only grew from nothing, at no distance where no two bars are apart. */
  lemma SkippedKin(cfg: Config, bars: seq<Bar>, current: nat, store: Store)
    requires current < |bars| && LooksBack(cfg.mode) && current < FirstLabelledBar(cfg.mode, cfg.maxBarsBack)
    requires |store.indices| == |store.labels| == |store.distances| <= Limit(cfg)
    requires NoLabels(store) && (Level(cfg, bars) ==> ZeroDistances(store))
    ensures var next := ScanTo(cfg, bars, current, store, WindowLength(cfg, current)).store;
            NoLabels(next) && Kin(cfg, bars, START.store, next)
  {
    EarlyScanHasNoLabels(cfg, bars, current, store, WindowLength(cfg, current));
    if Level(cfg, bars) {
      LevelScan(cfg, bars, current, store, store, WindowLength(cfg, current));
    }
  }

  /** One bar of two loops that start at different bars. */
  lemma UnsteeredBar(cfg: Config, bars: seq<Bar>, first: nat, s: State, plain: State)
    requires LooksBack(cfg.mode) && Unsteered(cfg, bars) && first <= FirstLabelledBar(cfg.mode, cfg.maxBarsBack)
    requires |s.signals| == |plain.signals| < |bars| && |s.barsHeld| == |s.signals|
        && |plain.barsHeld| == |plain.signals|
    requires |s.store.indices| == |s.store.labels| == |s.store.distances| <= Limit(cfg)
    requires |plain.store.indices| == |plain.store.labels| == |plain.store.distances| <= Limit(cfg)
    requires Kin(cfg, bars, s.store, plain.store) && s.prediction == Sum(s.store.labels)
    requires |s.signals| < first ==> s.store == START.store && NoLabels(plain.store)
    ensures var next, plainly := NextBar(cfg, bars, first, s), NextBar(cfg, bars, 0, plain);
            && Kin(cfg, bars, next.store, plainly.store)
                 && next.prediction == Sum(next.store.labels) == plainly.prediction
            && (|s.signals| < first ==> next.store == START.store && NoLabels(plainly.store))
  {
    var current := |s.signals|;
    if current < first {
      SkippedKin(cfg, bars, current, plain.store);
    } else {
      KinScan(cfg, bars, current, s.store, plain.store);
    }
    PaddedPredicts(NextBar(cfg, bars, first, s).store, NextBar(cfg, bars, 0, plain).store);
  }

  /** Equal predictions give equal columns. */
  lemma SameColumns(cfg: Config, bars: seq<Bar>, first: nat, s: State, plain: State)
    requires |s.signals| < |bars| && |s.barsHeld| == |s.signals|
    requires |s.store.indices| == |s.store.labels| == |s.store.distances| <= Limit(cfg)
    requires |plain.store.indices| == |plain.store.labels| == |plain.store.distances| <= Limit(cfg)
    requires s.signal == plain.signal && s.predictions == plain.predictions
    requires s.signals == plain.signals && s.barsHeld == plain.barsHeld
    requires NextBar(cfg, bars, first, s).prediction == NextBar(cfg, bars, 0, plain).prediction
    ensures var next, plainly := NextBar(cfg, bars, first, s), NextBar(cfg, bars, 0, plain);
            && next.signal == plainly.signal && next.predictions == plainly.predictions
            && next.signals == plainly.signals && next.barsHeld == plainly.barsHeld
  {
  }

  ghost predicate Together(cfg: Config, bars: seq<Bar>, first: nat, s: State, plain: State) {
    && Kin(cfg, bars, s.store, plain.store) && s.prediction == Sum(s.store.labels) == plain.prediction
    && s.signal == plain.signal && s.predictions == plain.predictions
    && s.signals == plain.signals && s.barsHeld == plain.barsHeld
    && (|s.signals| <= first ==> s.store == START.store && NoLabels(plain.store))
  }

  lemma StayTogether(cfg: Config, bars: seq<Bar>, first: nat, s: State, plain: State)
    requires LooksBack(cfg.mode) && Unsteered(cfg, bars) && first <= FirstLabelledBar(cfg.mode, cfg.maxBarsBack)
    requires |s.signals| == |plain.signals| < |bars| && |s.barsHeld| == |s.signals|
        && |plain.barsHeld| == |plain.signals|
    requires |s.store.indices| == |s.store.labels| == |s.store.distances| <= Limit(cfg)
    requires |plain.store.indices| == |plain.store.labels| == |plain.store.distances| <= Limit(cfg)
    requires Together(cfg, bars, first, s, plain)
    ensures Together(cfg, bars, first, NextBar(cfg, bars, first, s), NextBar(cfg, bars, 0, plain))
  {
    UnsteeredBar(cfg, bars, first, s, plain);
    SameColumns(cfg, bars, first, s, plain);
  }

  lemma {:induction false} UnsteeredSame(cfg: Config, bars: seq<Bar>, first: nat, n: nat)
    requires n <= |bars| && LooksBack(cfg.mode) && Unsteered(cfg, bars)
    requires first <= FirstLabelledBar(cfg.mode, cfg.maxBarsBack)
    ensures Together(cfg, bars, first, Loop(cfg, bars, first, n), Loop(cfg, bars, 0, n))
  {
    if n > 0 {
      UnsteeredSame(cfg, bars, first, n - 1);
      StayTogether(cfg, bars, first, Loop(cfg, bars, first, n - 1), Loop(cfg, bars, 0, n - 1));
    }
  }

  // ---------------------------------------------------------------- rows

  /** On a safe frame that is not muted the loop may as well start at bar zero. */
  lemma SafeStartSame(cfg: Config, bars: seq<Bar>, length: nat)
    requires |bars| <= length && SafeFrame(cfg, bars, length) && !Muted(cfg.mode, cfg.maxBarsBack, length)
    ensures SeriesOf(cfg, bars, FirstBar(cfg, |bars|)) == SeriesOf(cfg, bars, 0)
  {
    var first := FirstBar(cfg, |bars|);
    if first <= FirstHeard(cfg, bars) {
      EarlyStartSame(cfg, bars, first, |bars|);
    } else {
      UnsteeredSame(cfg, bars, first, |bars|);
    }
  }

  /** Columns on a prefix that are the first entries of the full columns give the first rows. */
  lemma RowsFollowSeries(cfg: Settings, bars: seq<Bar>, n: nat, s: Series)
    requires n <= |bars| && s == SeriesOf(cfg.core, bars, FirstBar(cfg.core, |bars|))
    requires SeriesOf(cfg.core, bars[..n], FirstBar(cfg.core, n)) == Cut(s, n)
    ensures Rows(cfg, bars[..n]) == Rows(cfg, bars)[..n]
  {
    EntriesIgnoreFuture(cfg, bars, s, n);
    ExitsIgnoreFuture(cfg, bars, s, n);
    AssembledPrefix(cfg, s, LongEntries(cfg, bars, s), ShortEntries(cfg, bars, s),
                    LongExits(cfg, bars, s), ShortExits(cfg, bars, s), n);
  }

  /** Running the classifier on a prefix of a safe frame gives exactly the first rows of the full run: predictions,
      signals, bars held, entries and exits. */
  lemma RowsNeverRepaint(cfg: Settings, bars: seq<Bar>, n: nat)
    requires SafeFrame(cfg.core, bars, |bars|) && n <= |bars|
    ensures Rows(cfg, bars[..n]) == Rows(cfg, bars)[..n]
  {
    SafeSeries(cfg.core, bars, n);
    RowsFollowSeries(cfg, bars, n, SeriesOf(cfg.core, bars, FirstBar(cfg.core, |bars|)));
  }

  lemma SafeSeries(cfg: Config, bars: seq<Bar>, n: nat)
    requires SafeFrame(cfg, bars, |bars|) && n <= |bars|
    ensures SeriesOf(cfg, bars[..n], FirstBar(cfg, n)) == Cut(SeriesOf(cfg, bars, FirstBar(cfg, |bars|)), n)
  {
    if Muted(cfg.mode, cfg.maxBarsBack, |bars|) {
      MutedSeries(cfg, bars, FirstBar(cfg, |bars|));
      MutedSeries(cfg, bars[..n], FirstBar(cfg, n));
    } else {
      SafePrefix(cfg, bars, n, |bars|);
      SafeStartSame(cfg, bars, |bars|);
      SafeStartSame(cfg, bars[..n], |bars|);
      SeriesIgnoresFuture(cfg, bars, n, 0);
    }
  }

  lemma AssembledPrefix(cfg: Settings, s: Series, longs: seq<bool>, shorts: seq<bool>,
                        endLongs: seq<bool>, endShorts: seq<bool>, n: nat)
    requires |s.predictions| == |s.signals| == |s.barsHeld| == |longs| == |shorts| == |endLongs| == |endShorts|
    requires n <= |longs|
    ensures Assemble(cfg, Cut(s, n), longs[..n], shorts[..n], endLongs[..n], endShorts[..n])
            == Assemble(cfg, s, longs, shorts, endLongs, endShorts)[..n]
  {
  }

  /** In the two forward modes labels do repaint: exactly when the fourth next bar was still missing
      and stands on another side of the source than level. */
  lemma ForwardLabelsRepaint(bars: seq<Bar>, mode: Mode, n: nat, i: nat)
    requires !LooksBack(mode) && i < n <= |bars|
    ensures Label(bars[..n], i, mode) != Label(bars, i, mode) <==>
            n <= i + 4 < |bars| && bars[i + 4].source != bars[i].source
  {
  }
}
