/**
 * When the frame length matters: on a frame longer than the history allows, the classifier does not
 * work on the first bars, and a prefix that did work on them can show other rows.
 */
module FrameLength {
  import opened Options
  import opened Neighbours
  import opened Lorentz
  import opened NoRepainting

  /** The bars before the first one worked on stay blank. */
  lemma {:induction false} BlankBeforeFirstBar(cfg: Config, bars: seq<Bar>, first: nat, n: nat)
    requires n <= |bars| && n <= first
    ensures var s := Loop(cfg, bars, first, n);
            s.store == START.store && s.prediction == 0 && forall t :: 0 <= t < n ==> s.predictions[t] == 0
  {
    if n > 0 { BlankBeforeFirstBar(cfg, bars, first, n - 1); }
  }

  /** Up to bar `to` the window starts at bar zero and holds the bar itself. */
  ghost predicate WindowsHold(cfg: Config, to: nat) {
    cfg.maxBarsBack > to
  }

  lemma WholeWindow(cfg: Config, current: nat)
    requires WindowsHold(cfg, current)
    ensures WindowStart(cfg, current) == 0 && WindowLength(cfg, current) == current + 1
  {
  }

  /** The first bars all have equal feature vectors, as the distance sees them. */
  ghost predicate Alike(cfg: Config, bars: seq<Bar>, n: nat)
    requires n <= |bars|
  {
    forall i, j :: 0 <= i < n && 0 <= j < n ==> Between(cfg, bars, i, j) == Some(0.0)
  }

  ghost predicate Flat(store: Store) {
    NoLabels(store) && forall i :: 0 <= i < |store.distances| ==> store.distances[i] == 0.0
  }

  /** In a window that starts at bar zero a bar stands for its own index. */
  lemma CandidateInWindow(cfg: Config, bars: seq<Bar>, current: nat, index: nat, lastDistance: real)
    requires index <= current < |bars| && WindowStart(cfg, current) == 0
    ensures var d := Between(cfg, bars, current, index);
            Candidate(cfg, bars, current, index, lastDistance) ==
            if d.Some? && d.value >= lastDistance && AcceptModulo(index, cfg.mode)
            then Some(Neighbour(index, Label(bars, index, cfg.mode), d.value)) else None
  {
  }

  /** Below the first labelled index only zero labels are accepted. */
  lemma EarlyLabelIsZero(bars: seq<Bar>, mode: Mode, index: nat)
    requires LooksBack(mode) && index < |bars| && index < FirstLabelled(mode) && AcceptModulo(index, mode)
    ensures Label(bars, index, mode) == 0
  {
    AcceptedIndices(mode, index);
  }

  lemma TakeInFlat(cfg: Config, s: Scan, n: Neighbour)
    requires |s.store.indices| == |s.store.labels| == |s.store.distances| <= Limit(cfg) && Flat(s.store)
    requires n.distance == 0.0
    ensures var next := TakeIn(cfg, s, n);
            && next.lastDistance == 0.0
            && (n.y == 0 ==> Flat(next.store))
            && (cfg.neighborsCount >= 1 ==> Sum(next.store.labels) == n.y)
  {
    var labels := TakeIn(cfg, s, n).store.labels;
    if cfg.neighborsCount >= 1 {
      SumOfZerosAndOne(labels);
    }
  }

  /** Taking in a bar at distance zero, or not, keeps a flat scan flat while its label is zero. */
  lemma AlikeStep(cfg: Config, bars: seq<Bar>, current: nat, store: Store, k: nat)
    requires LooksBack(cfg.mode) && k <= current < |bars| && Between(cfg, bars, current, k) == Some(0.0)
    requires WindowStart(cfg, current) == 0 && WindowLength(cfg, current) == current + 1
    requires |store.indices| == |store.labels| == |store.distances| <= Limit(cfg)
    requires Flat(ScanTo(cfg, bars, current, store, k).store)
        && ScanTo(cfg, bars, current, store, k).lastDistance <= 0.0
    ensures var s := ScanTo(cfg, bars, current, store, k + 1);
            && (k < FirstLabelled(cfg.mode) ==> Flat(s.store) && s.lastDistance <= 0.0)
            && (AcceptModulo(k, cfg.mode) && cfg.neighborsCount >= 1 ==>
                  Sum(s.store.labels) == Label(bars, k, cfg.mode))
  {
    var s := ScanTo(cfg, bars, current, store, k);
    CandidateInWindow(cfg, bars, current, k, s.lastDistance);
    ScanStep(cfg, bars, current, store, k);
    if AcceptModulo(k, cfg.mode) {
      TakeInFlat(cfg, s, Neighbour(k, Label(bars, k, cfg.mode), 0.0));
      if k < FirstLabelled(cfg.mode) {
        EarlyLabelIsZero(bars, cfg.mode, k);
      }
    }
  }

  lemma {:induction false} AlikeScan(cfg: Config, bars: seq<Bar>, current: nat, store: Store, k: nat)
    requires LooksBack(cfg.mode) && current < |bars| && Alike(cfg, bars, current + 1)
    requires WindowStart(cfg, current) == 0 && WindowLength(cfg, current) == current + 1
    requires k <= current + 1 && k <= FirstLabelled(cfg.mode)
    requires |store.indices| == |store.labels| == |store.distances| <= Limit(cfg) && Flat(store)
    ensures var s := ScanTo(cfg, bars, current, store, k);
            Flat(s.store) && s.lastDistance <= 0.0
  {
    if k > 0 {
      AlikeScan(cfg, bars, current, store, k - 1);
      AlikeStep(cfg, bars, current, store, k - 1);
    }
  }

  lemma {:induction false} AlikeLoop(cfg: Config, bars: seq<Bar>, n: nat)
    requires LooksBack(cfg.mode) && n <= |bars| && n <= FirstLabelled(cfg.mode)
    requires Alike(cfg, bars, n) && WindowsHold(cfg, n)
    ensures Flat(Loop(cfg, bars, 0, n).store)
  {
    if n > 0 {
      AlikeLoop(cfg, bars, n - 1);
      WholeWindow(cfg, n - 1);
      AlikeScan(cfg, bars, n - 1, Loop(cfg, bars, 0, n - 1).store, n);
      NextPrediction(cfg, bars, 0, n - 1);
    }
  }

  lemma SumOfZerosAndOne(values: seq<int>)
    requires values != [] && forall i :: 0 <= i < |values| - 1 ==> values[i] == 0
    ensures Sum(values) == values[|values| - 1]
  {
    SumOfZeros(values[..|values| - 1]);
  }

  lemma FirstLabelledIsAccepted(mode: Mode)
    ensures AcceptModulo(FirstLabelled(mode), mode) && AcceptModulo(FirstAccepted(mode), mode)
  {
  }

  /** On bars that look alike, the first bar with a label of its own predicts that label. */
  lemma FirstLabelShows(cfg: Config, bars: seq<Bar>, h: nat)
    requires h == FirstLabelled(cfg.mode)
    requires LooksBack(cfg.mode) && cfg.neighborsCount >= 1 && WindowsHold(cfg, h)
    requires h < |bars| && Alike(cfg, bars, h + 1)
    ensures Loop(cfg, bars, 0, h + 1).predictions[h] == Label(bars, h, cfg.mode)
  {
    FirstLabelledIsAccepted(cfg.mode);
    AlikeLoop(cfg, bars, h);
    WholeWindow(cfg, h);
    AlikeScan(cfg, bars, h, Loop(cfg, bars, 0, h).store, h);
    AlikeStep(cfg, bars, h, Loop(cfg, bars, 0, h).store, h);
    NextPrediction(cfg, bars, 0, h);
  }

  lemma NextPrediction(cfg: Config, bars: seq<Bar>, first: nat, t: nat)
    requires first <= t < |bars|
    ensures var before := Loop(cfg, bars, first, t);
            var scan := ScanTo(cfg, bars, t, before.store, WindowLength(cfg, t));
            && Loop(cfg, bars, first, t + 1).store == scan.store
            && Loop(cfg, bars, first, t + 1).predictions[t] == Sum(scan.store.labels)
  {
  }

  /** Whatever the number of neighbours, a frame long enough to skip the first bar with a label of its own
      repaints that bar, when the bars up to it look alike and the source moved over the four bars before. */
  lemma LongFramesRepaint(cfg: Settings, bars: seq<Bar>, h: nat)
    requires h == FirstLabelled(cfg.core.mode) && LooksBack(cfg.core.mode) && cfg.core.neighborsCount >= 1
    requires cfg.core.maxBarsBack > h && |bars| >= cfg.core.maxBarsBack + 2 + h
    requires Alike(cfg.core, bars, h + 1) && bars[h].source != bars[h - 4].source
    ensures Rows(cfg, bars[..h + 1]) != Rows(cfg, bars)[..h + 1]
  {
    var prefix := bars[..h + 1];
    SkippedPredictsNothing(cfg.core, bars, h);
    PrefixIsAlike(cfg.core, bars, h + 1);
    FirstLabelShows(cfg.core, prefix, h);
    LabelMoves(prefix, h, cfg.core.mode);
    PredictionsDiffer(cfg, bars, h + 1, h);
  }

  lemma SkippedPredictsNothing(cfg: Config, bars: seq<Bar>, t: nat)
    requires t < |bars| && t < FirstBar(cfg, |bars|)
    ensures PredictedAt(cfg, bars, t) == 0
  {
    BlankBeforeFirstBar(cfg, bars, FirstBar(cfg, |bars|), t + 1);
  }

  lemma PrefixIsAlike(cfg: Config, bars: seq<Bar>, n: nat)
    requires n <= |bars| && Alike(cfg, bars, n)
    ensures Alike(cfg, bars[..n], n)
  {
    forall i, j | 0 <= i < n && 0 <= j < n ensures Between(cfg, bars[..n], i, j) == Some(0.0) {
      assert Between(cfg, bars[..n], i, j) == Between(cfg, bars, i, j);
    }
  }

  lemma LabelMoves(bars: seq<Bar>, index: nat, mode: Mode)
    requires LooksBack(mode) && 4 <= index < |bars| && bars[index].source != bars[index - 4].source
    ensures Label(bars, index, mode) != 0
  {
  }

  /** The prediction the loop had after bar `t`, on the frame as long as it is. */
  function PredictedAt(cfg: Config, bars: seq<Bar>, t: nat): int
    requires t < |bars|
  {
    Loop(cfg, bars, FirstBar(cfg, |bars|), t + 1).predictions[t]
  }

  lemma SeriesPredicts(cfg: Config, bars: seq<Bar>, t: nat)
    requires t < |bars|
    ensures SeriesOf(cfg, bars, FirstBar(cfg, |bars|)).predictions[t] == PredictedAt(cfg, bars, t)
  {
    LoopIsIncremental(cfg, bars, FirstBar(cfg, |bars|), t + 1, |bars|);
  }

  /** A row shows the prediction of the loop as it stood after its bar. */
  lemma RowPredicts(cfg: Settings, bars: seq<Bar>, t: nat)
    requires t < |bars|
    ensures Rows(cfg, bars)[t].prediction == PredictedAt(cfg.core, bars, t)
  {
    SeriesPredicts(cfg.core, bars, t);
  }

  lemma PredictionsDiffer(cfg: Settings, bars: seq<Bar>, n: nat, t: nat)
    requires t < n <= |bars| && PredictedAt(cfg.core, bars[..n], t) != PredictedAt(cfg.core, bars, t)
    ensures Rows(cfg, bars[..n]) != Rows(cfg, bars)[..n]
  {
    RowPredicts(cfg, bars[..n], t);
    RowPredicts(cfg, bars, t);
    assert Rows(cfg, bars)[..n][t] == Rows(cfg, bars)[t];
  }

  // ---------------------------------------------------------------- what a bar offers

  /** The historical bar at a place of the window, if the modulo test and the distance let it compete. */
  function Offer(cfg: Config, bars: seq<Bar>, current: nat, relative: nat): Option<Neighbour>
    requires current < |bars| && WindowStart(cfg, current) + relative <= current
  {
    var h := WindowStart(cfg, current) + relative;
    var d := Between(cfg, bars, current, h);
    if d.Some? && AcceptModulo(relative, cfg.mode) then Some(Neighbour(h, Label(bars, h, cfg.mode), d.value)) else None
  }

  lemma CandidateIsOffer(cfg: Config, bars: seq<Bar>, current: nat, relative: nat, lastDistance: real)
    requires current < |bars| && WindowStart(cfg, current) + relative <= current
    ensures var o := Offer(cfg, bars, current, relative);
            Candidate(cfg, bars, current, relative, lastDistance)
            == if o.Some? && o.value.distance >= lastDistance then o else None
  {
  }

  function Offers(cfg: Config, bars: seq<Bar>, current: nat, k: nat): seq<Neighbour>
    requires current < |bars| && k <= WindowLength(cfg, current)
  {
    if k == 0 then []
    else
      var o := Offer(cfg, bars, current, k - 1);
      Offers(cfg, bars, current, k - 1) + if o.Some? then [o.value] else []
  }

  lemma OffersAppends(cfg: Config, bars: seq<Bar>, current: nat, k: nat)
    requires current < |bars| && k < WindowLength(cfg, current)
    ensures var o := Offer(cfg, bars, current, k);
            Offers(cfg, bars, current, k + 1) == Offers(cfg, bars, current, k) + if o.Some? then [o.value] else []
  {
  }

  /** Only place p of the window offers anything. */
  ghost predicate SolePlace(cfg: Config, bars: seq<Bar>, t: nat, p: nat, sole: Neighbour)
    requires t < |bars|
  {
    forall k :: 0 <= k < WindowLength(cfg, t) ==>
      WindowStart(cfg, t) + k <= t && Offer(cfg, bars, t, k) == if k == p then Some(sole) else None
  }

  lemma OffersOfSole(cfg: Config, bars: seq<Bar>, t: nat, p: nat, sole: Neighbour, k: nat)
    requires t < |bars| && SolePlace(cfg, bars, t, p, sole) && k <= WindowLength(cfg, t)
    ensures Offers(cfg, bars, t, k) == if k <= p then [] else [sole]
  {
    for i := 0 to k
      invariant Offers(cfg, bars, t, i) == if i <= p then [] else [sole]
    {
      OffersAppends(cfg, bars, t, i);
    }
  }

  /** Taking in, one after the other, the offers at least as far away as the distance to beat. */
  function Play(cfg: Config, s: Scan, offers: seq<Neighbour>): (r: Scan)
    requires |s.store.indices| == |s.store.labels| == |s.store.distances| <= Limit(cfg)
    ensures |r.store.indices| == |r.store.labels| == |r.store.distances| <= Limit(cfg)
  {
    if offers == [] then s
    else
      var before, n := Play(cfg, s, offers[..|offers| - 1]), offers[|offers| - 1];
      if n.distance >= before.lastDistance then TakeIn(cfg, before, n) else before
  }

  lemma {:induction false} ScanPlays(cfg: Config, bars: seq<Bar>, current: nat, store: Store, k: nat)
    requires current < |bars| && k <= WindowLength(cfg, current)
    requires |store.indices| == |store.labels| == |store.distances| <= Limit(cfg)
    ensures ScanTo(cfg, bars, current, store, k) == Play(cfg, Scan(store, -1.0, []), Offers(cfg, bars, current, k))
  {
    if k > 0 {
      ScanPlays(cfg, bars, current, store, k - 1);
      ScanPlaysStep(cfg, bars, current, store, k - 1);
    }
  }

  lemma ScanPlaysStep(cfg: Config, bars: seq<Bar>, current: nat, store: Store, k: nat)
    requires current < |bars| && k < WindowLength(cfg, current)
    requires |store.indices| == |store.labels| == |store.distances| <= Limit(cfg)
    requires ScanTo(cfg, bars, current, store, k) == Play(cfg, Scan(store, -1.0, []), Offers(cfg, bars, current, k))
    ensures ScanTo(cfg, bars, current, store, k + 1)
        == Play(cfg, Scan(store, -1.0, []), Offers(cfg, bars, current, k + 1))
  {
    var o, offers := Offer(cfg, bars, current, k), Offers(cfg, bars, current, k);
    ScanStep(cfg, bars, current, store, k);
    CandidateIsOffer(cfg, bars, current, k, ScanTo(cfg, bars, current, store, k).lastDistance);
    if o.Some? {
      assert Offers(cfg, bars, current, k + 1) == offers + [o.value];
      PlayLast(cfg, Scan(store, -1.0, []), offers, o.value);
    } else {
      assert Offers(cfg, bars, current, k + 1) == offers;
    }
  }

  /** What a bar takes from its offers while there is room: each at least as far away as the one before. */
  function Greedy(offers: seq<Neighbour>): seq<Neighbour> {
    if offers == [] then []
    else
      var before, n := Greedy(offers[..|offers| - 1]), offers[|offers| - 1];
      if n.distance >= Newest(before, -1.0) then before + [n] else before
  }

  /** What a bar takes on its own. */
  function Takes(cfg: Config, bars: seq<Bar>, t: nat): seq<Neighbour>
    requires t < |bars|
  {
    Greedy(Offers(cfg, bars, t, WindowLength(cfg, t)))
  }

  function Newest(taken: seq<Neighbour>, default: real): real {
    if taken == [] then default else taken[|taken| - 1].distance
  }

  function StoreOf(taken: seq<Neighbour>): Store {
    Store(Indices(taken), Labels(taken), Distances(taken))
  }

  lemma StoreOfAppend(taken: seq<Neighbour>, n: Neighbour)
    ensures StoreOf(taken + [n])
            == Store(StoreOf(taken).indices + [n.index], StoreOf(taken).labels + [n.y],
              StoreOf(taken).distances + [n.distance])
  {
    assert Indices(taken + [n]) == Indices(taken) + [n.index];
    assert Labels(taken + [n]) == Labels(taken) + [n.y];
    assert Distances(taken + [n]) == Distances(taken) + [n.distance];
  }

  lemma {:induction false} GreedyGrows(offers: seq<Neighbour>, k: nat)
    requires k <= |offers|
    ensures |Greedy(offers[..k])| <= |Greedy(offers)|
  {
    if k < |offers| {
      GreedyGrows(offers[..|offers| - 1], k);
      assert offers[..|offers| - 1][..k] == offers[..k];
    } else {
      assert offers[..k] == offers;
    }
  }

  lemma {:induction false} PlayWithRoom(cfg: Config, taken: seq<Neighbour>, offers: seq<Neighbour>)
    requires |taken| + |Greedy(offers)| <= Limit(cfg)
    ensures var s := Play(cfg, Scan(StoreOf(taken), -1.0, []), offers);
            s.store == StoreOf(taken + Greedy(offers)) && s.lastDistance == Newest(Greedy(offers), -1.0)
  {
    if offers == [] {
      assert taken + [] == taken;
    } else {
      var init, n := offers[..|offers| - 1], offers[|offers| - 1];
      GreedyGrows(offers, |init|);
      PlayWithRoom(cfg, taken, init);
      if n.distance >= Newest(Greedy(init), -1.0) {
        StoreOfAppend(taken + Greedy(init), n);
        assert taken + (Greedy(init) + [n]) == (taken + Greedy(init)) + [n];
      }
    }
  }

  /** What the bars from `first` on take while there is room for all of it. */
  function Gathered(cfg: Config, bars: seq<Bar>, first: nat, n: nat): seq<Neighbour>
    requires n <= |bars|
  {
    if n == 0 then []
    else
      Gathered(cfg, bars, first, n - 1)
      + if n - 1 >= first then Takes(cfg, bars, n - 1) else []
  }

  lemma BarWithRoom(cfg: Config, bars: seq<Bar>, first: nat, t: nat, taken: seq<Neighbour>)
    requires first <= t < |bars| && Loop(cfg, bars, first, t).store == StoreOf(taken)
    requires |taken| + |Takes(cfg, bars, t)| <= Limit(cfg)
    ensures Loop(cfg, bars, first, t + 1).store == StoreOf(taken + Takes(cfg, bars, t))
  {
    NextPrediction(cfg, bars, first, t);
    ScanPlays(cfg, bars, t, StoreOf(taken), WindowLength(cfg, t));
    PlayWithRoom(cfg, taken, Offers(cfg, bars, t, WindowLength(cfg, t)));
  }

  lemma GatheredStep(cfg: Config, bars: seq<Bar>, first: nat, t: nat, taken: seq<Neighbour>)
    requires t < |bars| && taken == Gathered(cfg, bars, first, t) && Loop(cfg, bars, first, t).store == StoreOf(taken)
    requires |Gathered(cfg, bars, first, t + 1)| <= Limit(cfg)
    ensures Loop(cfg, bars, first, t + 1).store == StoreOf(Gathered(cfg, bars, first, t + 1))
  {
    if t >= first {
      BarWithRoom(cfg, bars, first, t, taken);
    } else {
      SkippedBar(cfg, bars, first, t);
      assert Gathered(cfg, bars, first, t + 1) == taken;
    }
  }

  lemma {:induction false} LoopWithRoom(cfg: Config, bars: seq<Bar>, first: nat, n: nat)
    requires n <= |bars| && |Gathered(cfg, bars, first, n)| <= Limit(cfg)
    ensures Loop(cfg, bars, first, n).store == StoreOf(Gathered(cfg, bars, first, n))
  {
    if n == 0 {
      assert Loop(cfg, bars, first, 0).store == START.store;
    } else {
      LoopWithRoom(cfg, bars, first, n - 1);
      GatheredStep(cfg, bars, first, n - 1, Gathered(cfg, bars, first, n - 1));
    }
  }

  lemma SkippedBar(cfg: Config, bars: seq<Bar>, first: nat, t: nat)
    requires t < first && t < |bars|
    ensures Loop(cfg, bars, first, t + 1).store == Loop(cfg, bars, first, t).store
  {
  }

  lemma GatheredAppends(cfg: Config, bars: seq<Bar>, first: nat, t: nat)
    requires t < |bars|
    ensures Gathered(cfg, bars, first, t + 1)
            == Gathered(cfg, bars, first, t) + if t >= first then Takes(cfg, bars, t) else []
  {
  }

  lemma NothingLater(cfg: Config, bars: seq<Bar>, first: nat, n: nat)
    requires n <= |bars| && forall j :: 0 <= j < n ==> Takes(cfg, bars, j) == []
    ensures Gathered(cfg, bars, first, n) == []
  {
    for i := 0 to n
      invariant Gathered(cfg, bars, first, i) == []
    {
      GatheredAppends(cfg, bars, first, i);
    }
  }

  /** What a loop that starts at `first` has gathered, beside all there was, of which `k` came at bar `a`. */
  ghost predicate Lags(late: seq<Neighbour>, all: seq<Neighbour>, first: nat, a: nat, k: nat) {
    && |all| >= k
    && if first <= a then late == all else |late| + k <= |all|
  }

  lemma GatheredFromLater(cfg: Config, bars: seq<Bar>, first: nat, a: nat, n: nat)
    requires a < n <= |bars| && forall j :: 0 <= j < a ==> Takes(cfg, bars, j) == []
    ensures Lags(Gathered(cfg, bars, first, n), Gathered(cfg, bars, 0, n), first, a, |Takes(cfg, bars, a)|)
  {
    NothingLater(cfg, bars, first, a);
    NothingLater(cfg, bars, 0, a);
    GatheredAppends(cfg, bars, first, a);
    GatheredAppends(cfg, bars, 0, a);
    for i := a + 1 to n
      invariant Lags(Gathered(cfg, bars, first, i), Gathered(cfg, bars, 0, i), first, a, |Takes(cfg, bars, a)|)
    {
      GatheredAppends(cfg, bars, first, i);
      GatheredAppends(cfg, bars, 0, i);
    }
  }

  // ---------------------------------------------------------------- one neighbour more or less

  /** Neighbours without a label and at no distance. */
  ghost predicate Plain(taken: seq<Neighbour>) {
    forall i :: 0 <= i < |taken| ==> taken[i].y == 0 && taken[i].distance == 0.0
  }

  /** Offers without a label, all equally far, and then one at no distance that has a label. */
  ghost predicate Duel(offers: seq<Neighbour>, far: real) {
    && |offers| >= 2 && far > 0.0
    && offers[|offers| - 1].y != 0 && offers[|offers| - 1].distance == 0.0
    && forall i :: 0 <= i < |offers| - 1 ==> offers[i].y == 0 && offers[i].distance == far
  }

  /** Equally far offers are all taken while there is room. */
  lemma {:induction false} GreedyLevel(offers: seq<Neighbour>, far: real)
    requires far >= 0.0 && forall i :: 0 <= i < |offers| ==> offers[i].distance == far
    ensures Greedy(offers) == offers
  {
    if offers != [] {
      GreedyLevel(offers[..|offers| - 1], far);
    }
  }

  lemma PlayLast(cfg: Config, s: Scan, offers: seq<Neighbour>, n: Neighbour)
    requires |s.store.indices| == |s.store.labels| == |s.store.distances| <= Limit(cfg)
    ensures var before := Play(cfg, s, offers);
            Play(cfg, s, offers + [n]) == if n.distance >= before.lastDistance then TakeIn(cfg, before, n) else before
  {
    assert (offers + [n])[..|offers|] == offers;
  }

  lemma PlayLevel(cfg: Config, taken: seq<Neighbour>, offers: seq<Neighbour>, far: real)
    requires far >= 0.0 && forall i :: 0 <= i < |offers| ==> offers[i].distance == far
    requires |taken| + |offers| <= Limit(cfg)
    ensures var s := Play(cfg, Scan(StoreOf(taken), -1.0, []), offers);
            s.store == StoreOf(taken + offers) && s.lastDistance == if offers == [] then -1.0 else far
  {
    GreedyLevel(offers, far);
    PlayWithRoom(cfg, taken, offers);
  }

  lemma PlainLabels(taken: seq<Neighbour>)
    requires forall i :: 0 <= i < |taken| ==> taken[i].y == 0
    ensures Sum(StoreOf(taken).labels) == 0
  {
    SumOfZeros(StoreOf(taken).labels);
  }

  /** While there is room for all the far ones, the last of them keeps the labelled one out. */
  lemma DuelWithRoom(cfg: Config, taken: seq<Neighbour>, offers: seq<Neighbour>, far: real)
    requires Duel(offers, far) && Plain(taken) && |taken| + |offers| - 1 <= Limit(cfg)
    ensures Sum(Play(cfg, Scan(StoreOf(taken), -1.0, []), offers).store.labels) == 0
  {
    var m := |offers| - 1;
    PlayLevel(cfg, taken, offers[..m], far);
    assert offers == offers[..m] + [offers[m]];
    PlayLast(cfg, Scan(StoreOf(taken), -1.0, []), offers[..m], offers[m]);
    PlainLabels(taken + offers[..m]);
  }

  /** Taking one too many drops the oldest and lets a neighbour at no distance set the distance to beat. */
  lemma TakeOneTooMany(cfg: Config, s: Scan, held: seq<Neighbour>, n: Neighbour)
    requires s.store == StoreOf(held) && |held| == Limit(cfg) > Pivot(cfg) && held[Pivot(cfg)].distance == 0.0
    requires n.y == 0 && forall i :: 0 <= i < |held| ==> held[i].y == 0
    ensures var next := TakeIn(cfg, s, n);
            next.lastDistance == 0.0 && NoLabels(next.store) && |next.store.labels| == Limit(cfg)
  {
    ListsOfAppend(held, n);
    ListsOfRest(held + [n]);
  }

  lemma LabelOfLast(cfg: Config, s: Scan, n: Neighbour)
    requires |s.store.indices| == |s.store.labels| == |s.store.distances| == Limit(cfg) >= 1 && NoLabels(s.store)
    ensures Sum(TakeIn(cfg, s, n).store.labels) == n.y
  {
    SumOfZerosAndOne(TakeIn(cfg, s, n).store.labels);
  }

  /** With room for all the far ones but one, the labelled one comes in. */
  lemma DuelWhenFull(cfg: Config, taken: seq<Neighbour>, offers: seq<Neighbour>, far: real)
    requires Duel(offers, far) && Plain(taken) && |taken| + |offers| == Limit(cfg) + 2 && Pivot(cfg) < |taken|
    ensures Sum(Play(cfg, Scan(StoreOf(taken), -1.0, []), offers).store.labels) == offers[|offers| - 1].y
  {
    var m := |offers| - 1;
    assert offers == offers[..m - 1] + [offers[m - 1]] + [offers[m]];
    FullPlay(cfg, taken, offers[..m - 1], offers[m - 1], offers[m], far);
  }

  lemma FullPlay(cfg: Config, taken: seq<Neighbour>, fars: seq<Neighbour>, more: Neighbour, labelled: Neighbour,
      far: real)
    requires far > 0.0 && Plain(taken) && |taken| + |fars| == Limit(cfg) && Pivot(cfg) < |taken|
    requires forall i :: 0 <= i < |fars| ==> fars[i].y == 0 && fars[i].distance == far
    requires more.y == 0 && more.distance == far && labelled.distance == 0.0
    ensures Sum(Play(cfg, Scan(StoreOf(taken), -1.0, []), fars + [more] + [labelled]).store.labels) == labelled.y
  {
    var s := Scan(StoreOf(taken), -1.0, []);
    PlayLevel(cfg, taken, fars, far);
    PlayLast(cfg, s, fars, more);
    TakeOneTooMany(cfg, Play(cfg, s, fars), taken + fars, more);
    PlayLast(cfg, s, fars + [more], labelled);
    LabelOfLast(cfg, Play(cfg, s, fars + [more]), labelled);
  }

  /**
   * At bar t there is a duel. The bars before it took neighbours without a label and at no distance, bar `a` the
   * first of them, and together with the far ones of the duel they are one too many for the store.
   */
  ghost predicate DuelAt(cfg: Config, bars: seq<Bar>, a: nat, t: nat, far: real)
    requires t < |bars|
  {
    var offers, total := Offers(cfg, bars, t, WindowLength(cfg, t)), |Gathered(cfg, bars, 0, t)|;
    && Duel(offers, far) && a < t && Takes(cfg, bars, a) != [] && (forall j :: 0 <= j < a ==> Takes(cfg, bars, j) == [])
    && (forall j :: 0 <= j < t ==> Plain(Takes(cfg, bars, j)))
    && total + |offers| == Limit(cfg) + 2 && Pivot(cfg) < total
  }

  lemma GatheredPlain(cfg: Config, bars: seq<Bar>, first: nat, n: nat)
    requires n <= |bars| && forall j :: 0 <= j < n ==> Plain(Takes(cfg, bars, j))
    ensures Plain(Gathered(cfg, bars, first, n))
  {
    for i := 0 to n
      invariant Plain(Gathered(cfg, bars, first, i))
    {
      GatheredAppends(cfg, bars, first, i);
      assert Plain(Takes(cfg, bars, i));
    }
  }

  /** A bar after a loop that had room for all it gathered. */
  lemma PredictsFromGathered(cfg: Config, bars: seq<Bar>, first: nat, t: nat, taken: seq<Neighbour>,
      offers: seq<Neighbour>)
    requires first <= t < |bars| && taken == Gathered(cfg, bars, first, t) && |taken| <= Limit(cfg)
    requires offers == Offers(cfg, bars, t, WindowLength(cfg, t))
    ensures Loop(cfg, bars, first, t + 1).predictions[t]
        == Sum(Play(cfg, Scan(StoreOf(taken), -1.0, []), offers).store.labels)
  {
    LoopWithRoom(cfg, bars, first, t);
    NextPrediction(cfg, bars, first, t);
    ScanPlays(cfg, bars, t, StoreOf(taken), WindowLength(cfg, t));
  }

  lemma DuelPredictsLabel(cfg: Config, bars: seq<Bar>, a: nat, t: nat, far: real, first: nat)
    requires t < |bars| && DuelAt(cfg, bars, a, t, far) && first <= a
    ensures Loop(cfg, bars, first, t + 1).predictions[t] != 0
  {
    var taken, offers := Gathered(cfg, bars, first, t), Offers(cfg, bars, t, WindowLength(cfg, t));
    GatheredFromLater(cfg, bars, first, a, t);
    GatheredPlain(cfg, bars, first, t);
    PredictsFromGathered(cfg, bars, first, t, taken, offers);
    DuelWhenFull(cfg, taken, offers, far);
  }

  lemma DuelPredictsNothing(cfg: Config, bars: seq<Bar>, a: nat, t: nat, far: real, first: nat)
    requires t < |bars| && DuelAt(cfg, bars, a, t, far) && first > a
    ensures Loop(cfg, bars, first, t + 1).predictions[t] == 0
  {
    if first <= t {
      var taken, offers := Gathered(cfg, bars, first, t), Offers(cfg, bars, t, WindowLength(cfg, t));
      GatheredFromLater(cfg, bars, first, a, t);
      GatheredPlain(cfg, bars, first, t);
      PredictsFromGathered(cfg, bars, first, t, taken, offers);
      DuelWithRoom(cfg, taken, offers, far);
    } else {
      BlankBeforeFirstBar(cfg, bars, first, t + 1);
    }
  }

  lemma OffersIgnoreFuture(cfg: Config, bars: seq<Bar>, n: nat, current: nat, k: nat)
    requires LooksBack(cfg.mode) && current < n <= |bars| && k <= WindowLength(cfg, current)
    ensures Offers(cfg, bars[..n], current, k) == Offers(cfg, bars, current, k)
  {
    for i := 0 to k
      invariant Offers(cfg, bars[..n], current, i) == Offers(cfg, bars, current, i)
    {
      LabelIgnoresFuture(bars, n, WindowStart(cfg, current) + i, cfg.mode);
    }
  }

  lemma {:induction false} GatheredIgnoresFuture(cfg: Config, bars: seq<Bar>, n: nat, first: nat, k: nat)
    requires LooksBack(cfg.mode) && k <= n <= |bars|
    ensures Gathered(cfg, bars[..n], first, k) == Gathered(cfg, bars, first, k)
  {
    if k > 0 {
      GatheredIgnoresFuture(cfg, bars, n, first, k - 1);
      OffersIgnoreFuture(cfg, bars, n, k - 1, WindowLength(cfg, k - 1));
    }
  }

  lemma DuelIgnoresFuture(cfg: Config, bars: seq<Bar>, a: nat, t: nat, far: real, n: nat)
    requires LooksBack(cfg.mode) && t < n <= |bars| && DuelAt(cfg, bars, a, t, far)
    ensures DuelAt(cfg, bars[..n], a, t, far)
  {
    forall j: nat | j <= t ensures Offers(cfg, bars[..n], j, WindowLength(cfg, j))
        == Offers(cfg, bars, j, WindowLength(cfg, j)) {
      OffersIgnoreFuture(cfg, bars, n, j, WindowLength(cfg, j));
    }
    GatheredIgnoresFuture(cfg, bars, n, 0, t);
    forall j | 0 <= j < t ensures Takes(cfg, bars[..n], j) == Takes(cfg, bars, j) {
    }
  }

  lemma DuelOnPrefix(cfg: Config, bars: seq<Bar>, a: nat, t: nat, far: real, n: nat)
    requires LooksBack(cfg.mode) && t < n <= |bars| && DuelAt(cfg, bars, a, t, far) && FirstBar(cfg, n) <= a
    ensures PredictedAt(cfg, bars[..n], t) != 0
  {
    DuelIgnoresFuture(cfg, bars, a, t, far, n);
    DuelPredictsLabel(cfg, bars[..n], a, t, far, FirstBar(cfg, n));
  }

  lemma DuelOnFrame(cfg: Config, bars: seq<Bar>, a: nat, t: nat, far: real)
    requires t < |bars| && DuelAt(cfg, bars, a, t, far) && a < FirstBar(cfg, |bars|)
    ensures PredictedAt(cfg, bars, t) == 0
  {
    DuelPredictsNothing(cfg, bars, a, t, far, FirstBar(cfg, |bars|));
  }

  /** A frame that skips the first bar of a duel's store repaints the bar of the duel on every shorter frame that
      does not. */
  lemma DuelShows(cfg: Config, bars: seq<Bar>, a: nat, t: nat, far: real, n: nat)
    requires LooksBack(cfg.mode) && t < n <= |bars| && DuelAt(cfg, bars, a, t, far)
    requires FirstBar(cfg, n) <= a < FirstBar(cfg, |bars|)
    ensures PredictedAt(cfg, bars[..n], t) != PredictedAt(cfg, bars, t)
  {
    DuelOnPrefix(cfg, bars, a, t, far, n);
    DuelOnFrame(cfg, bars, a, t, far);
  }

  // ---------------------------------------------------------------- a single labelled offer

  /** Before bar t nothing is taken, and at bar t there is one offer, with a label. */
  ghost predicate SoleAt(cfg: Config, bars: seq<Bar>, t: nat)
    requires t < |bars|
  {
    var offers := Offers(cfg, bars, t, WindowLength(cfg, t));
    && |offers| == 1 && offers[0].distance >= 0.0 && offers[0].y != 0
    && forall j :: 0 <= j < t ==> Takes(cfg, bars, j) == []
  }

  lemma SolePredicts(cfg: Config, bars: seq<Bar>, t: nat, first: nat)
    requires first <= t < |bars| && SoleAt(cfg, bars, t) && Limit(cfg) >= 1
    ensures Loop(cfg, bars, first, t + 1).predictions[t] != 0
  {
    var offers := Offers(cfg, bars, t, WindowLength(cfg, t));
    NothingLater(cfg, bars, first, t);
    PredictsFromGathered(cfg, bars, first, t, [], offers);
    GreedyLevel(offers, offers[0].distance);
    PlayWithRoom(cfg, [], offers);
    assert [] + offers == offers;
    SumOfZerosAndOne(Labels(offers));
  }

  /** A frame that skips such a bar repaints it on every shorter frame that does not. */
  lemma SoleShows(cfg: Config, bars: seq<Bar>, t: nat, n: nat)
    requires t < n <= |bars| && FirstBar(cfg, n) <= t < FirstBar(cfg, |bars|)
    requires SoleAt(cfg, bars[..n], t) && Limit(cfg) >= 1
    ensures PredictedAt(cfg, bars[..n], t) != PredictedAt(cfg, bars, t)
  {
    SolePredicts(cfg, bars[..n], t, FirstBar(cfg, n));
    SkippedPredictsNothing(cfg, bars, t);
  }
}
