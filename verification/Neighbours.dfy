/** The nearest-neighbour loop of the Lorentzian classifier: a bounded first-in first-out store fed
    by the accepted historical bars, and the signal read off it. */
module Neighbours {
  import opened Options

  datatype Mode =
    | Static | RollingResearch | AnnRolling
    | MarkerTuned | Modulo0 | Modulo1 | Modulo2 | Modulo3
    | LabelInverted | LabelForward | LabelForwardInverted
    | BarsHeldStart0

  type Features = seq<Option<real>>

  /** One bar of input: the source value, the feature vector, whether all filters pass, the trend
      tests (all true when their filter is off), and the two kernel estimates. None stands for a
      value that is not finite. */
  datatype Bar = Bar(source: real, features: Features, filterAll: bool,
                     emaUp: bool, emaDown: bool, smaUp: bool, smaDown: bool,
                     yhat1: Option<real>, yhat2: Option<real>)

  /** The distance of two feature vectors is a parameter. */
  datatype Config = Config(
    mode: Mode,
    neighborsCount: int,
    maxBarsBack: int,
    minMagnitude: real,
    distance: (Features, Features) -> Option<real>)

  predicate IsRolling(mode: Mode) {
    mode == RollingResearch || mode == AnnRolling
  }

  /** Labels look ahead in the two forward modes. */
  predicate LooksBack(mode: Mode) {
    mode != LabelForward && mode != LabelForwardInverted
  }

  /** `_accept_modulo`. */
  predicate AcceptModulo(index: nat, mode: Mode) {
    match mode
    case MarkerTuned => index % 4 == 0
    case Modulo0 => index % 4 == 0
    case Modulo1 => index % 4 == 1
    case Modulo2 => index % 4 == 2
    case Modulo3 => index % 4 == 3
    case _ => index % 4 != 0
  }

  function Sign(x: real): int {
    if x > 0.0 then 1 else if x < 0.0 then -1 else 0
  }

  /** `_training_labels` at one bar: the direction of the source over four bars, back or forward. */
  function Label(bars: seq<Bar>, i: nat, mode: Mode): (y: int)
    requires i < |bars|
    ensures -1 <= y <= 1
  {
    var back := if i >= 4 then Sign(bars[i - 4].source - bars[i].source) else 0;
    var forward := if i + 4 < |bars| then Sign(bars[i + 4].source - bars[i].source) else 0;
    match mode
    case LabelInverted => -back
    case LabelForward => forward
    case LabelForwardInverted => -forward
    case _ => back
  }

  /** An accepted neighbour. */
  datatype Neighbour = Neighbour(index: nat, y: int, distance: real)

  /** The three parallel lists of the store. */
  datatype Store = Store(indices: seq<nat>, labels: seq<int>, distances: seq<real>)

  function Limit(cfg: Config): nat {
    if cfg.neighborsCount > 0 then cfg.neighborsCount else 0
  }

  /** Three quarters of the neighbour count, rounded half up and clamped into the full store. */
  function Pivot(cfg: Config): (p: nat)
    ensures p <= Limit(cfg)
  {
    (3 * Limit(cfg) + 2) / 4
  }

  datatype Scan = Scan(store: Store, lastDistance: real, accepted: seq<Neighbour>)

  /** Taking in one neighbour: append, and when the store overflows, reset the distance to beat to
      the pivot's and drop the oldest. */
  function TakeIn(cfg: Config, s: Scan, n: Neighbour): Scan
    requires |s.store.indices| == |s.store.labels| == |s.store.distances| <= Limit(cfg)
  {
    var grown := Store(s.store.indices + [n.index], s.store.labels + [n.y], s.store.distances + [n.distance]);
    if |grown.labels| > Limit(cfg)
    then Scan(Store(grown.indices[1..], grown.labels[1..], grown.distances[1..]), grown.distances[Pivot(cfg)],
        s.accepted + [n])
    else Scan(grown, n.distance, s.accepted + [n])
  }

  function WindowSize(cfg: Config, current: nat): int {
    if cfg.maxBarsBack - 1 < current then cfg.maxBarsBack - 1 else current
  }

  function WindowStart(cfg: Config, current: nat): nat {
    if IsRolling(cfg.mode) && current - WindowSize(cfg, current) > 0 then current - WindowSize(cfg, current) else 0
  }

  /** How many historical bars the loop walks. */
  function WindowLength(cfg: Config, current: nat): nat {
    var size := WindowSize(cfg, current);
    if IsRolling(cfg.mode)
    then if WindowStart(cfg, current) > current then 0 else current + 1 - WindowStart(cfg, current)
    else if size >= 0 then size + 1 else 0
  }

  /** The loop's decision on one historical bar. */
  function Candidate(cfg: Config, bars: seq<Bar>, current: nat, relative: nat, lastDistance: real): Option<Neighbour>
    requires current < |bars| && WindowStart(cfg, current) + relative <= current
  {
    var h := WindowStart(cfg, current) + relative;
    var d := cfg.distance(bars[current].features, bars[h].features);
    if d.Some? && d.value >= lastDistance && AcceptModulo(if IsRolling(cfg.mode) then relative else h, cfg.mode)
    then Some(Neighbour(h, Label(bars, h, cfg.mode), d.value))
    else None
  }

  ghost predicate Balanced(cfg: Config, store: Store) {
    |store.indices| == |store.labels| == |store.distances| <= Limit(cfg)
  }

  /** The scan after the first n historical bars of the current bar's window. */
  function ScanTo(cfg: Config, bars: seq<Bar>, current: nat, store: Store, n: nat): (s: Scan)
    requires current < |bars| && n <= WindowLength(cfg, current)
    requires |store.indices| == |store.labels| == |store.distances| <= Limit(cfg)
    ensures Balanced(cfg, s.store)
  {
    if n == 0 then Scan(store, -1.0, [])
    else
      var s := ScanTo(cfg, bars, current, store, n - 1);
      var c := Candidate(cfg, bars, current, n - 1, s.lastDistance);
      if c.Some? then TakeIn(cfg, s, c.value) else s
  }

  function Sum(values: seq<int>): int {
    if values == [] then 0 else Sum(values[..|values| - 1]) + values[|values| - 1]
  }

  /** What the main loop has produced after n bars. */
  datatype State = State(
    store: Store,
    prediction: int,
    signal: int,
    predictions: seq<int>,
    signals: seq<int>,
    barsHeld: seq<int>,
    stores: seq<Store>,
    accepted: seq<seq<Neighbour>>)

  const START := State(Store([], [], []), 0, 0, [], [], [], [], [])

  /** The first bar the loop works on: zero unless the frame is longer than the history allows. */
  function FirstBar(cfg: Config, length: nat): nat {
    if length - 1 - cfg.maxBarsBack > 0 then length - 1 - cfg.maxBarsBack else 0
  }

  /** A positive prediction turns the signal long and a negative one short, if strong enough and all
      filters pass; otherwise the signal stays. */
  function NextSignal(cfg: Config, signal: int, prediction: int, filterAll: bool): int {
    var magnitude := if cfg.minMagnitude > 0.0 then cfg.minMagnitude else 0.0;
    if prediction > 0 && (magnitude <= 0.0 || prediction as real >= magnitude) && filterAll then 1
    else if prediction < 0 && (magnitude <= 0.0 || (-prediction) as real >= magnitude) && filterAll then -1
    else signal
  }

  function NextBarsHeld(cfg: Config, held: seq<int>, signals: seq<int>, signal: int): int
    requires |held| == |signals|
  {
    if held == [] then if cfg.mode == BarsHeldStart0 then 0 else 1
    else if signal != signals[|signals| - 1] then 0 else held[|held| - 1] + 1
  }

  function NextBar(cfg: Config, bars: seq<Bar>, first: nat, s: State): State
    requires |s.signals| < |bars| && |s.barsHeld| == |s.signals|
    requires |s.store.indices| == |s.store.labels| == |s.store.distances| <= Limit(cfg)
  {
    var current := |s.signals|;
    var scan :=
      if current >= first then ScanTo(cfg, bars, current, s.store, WindowLength(cfg, current))
      else Scan(s.store, -1.0, []);
    var prediction := if current >= first then Sum(scan.store.labels) else s.prediction;
    var signal := NextSignal(cfg, s.signal, prediction, bars[current].filterAll);
    State(scan.store, prediction, signal,
          s.predictions + [prediction], s.signals + [signal],
          s.barsHeld + [NextBarsHeld(cfg, s.barsHeld, s.signals, signal)],
          s.stores + [scan.store], s.accepted + [scan.accepted])
  }

  function Loop(cfg: Config, bars: seq<Bar>, first: nat, n: nat): (s: State)
    requires n <= |bars|
    ensures |s.predictions| == |s.signals| == |s.barsHeld| == |s.stores| == |s.accepted| == n
    ensures |s.store.indices| == |s.store.labels| == |s.store.distances| <= Limit(cfg)
  {
    if n == 0 then START else NextBar(cfg, bars, first, Loop(cfg, bars, first, n - 1))
  }

  /** Everything accepted so far, in order. */
  function Stream(accepted: seq<seq<Neighbour>>): seq<Neighbour> {
    if accepted == [] then [] else Stream(accepted[..|accepted| - 1]) + accepted[|accepted| - 1]
  }

  function Tail<T>(items: seq<T>, k: nat): seq<T> {
    if |items| <= k then items else items[|items| - k..]
  }

  function Indices(items: seq<Neighbour>): (r: seq<nat>)
    ensures |r| == |items|
  {
    seq(|items|, i requires 0 <= i < |items| => items[i].index)
  }

  function Labels(items: seq<Neighbour>): (r: seq<int>)
    ensures |r| == |items|
  {
    seq(|items|, i requires 0 <= i < |items| => items[i].y)
  }

  function Distances(items: seq<Neighbour>): (r: seq<real>)
    ensures |r| == |items|
  {
    seq(|items|, i requires 0 <= i < |items| => items[i].distance)
  }

  /** The store holds exactly the last neighbours of a stream, in all three lists. */
  ghost predicate IsWindow(cfg: Config, store: Store, stream: seq<Neighbour>) {
    var last := Tail(stream, Limit(cfg));
    store == Store(Indices(last), Labels(last), Distances(last))
  }

  lemma TailOfAppend(stream: seq<Neighbour>, n: Neighbour, k: nat)
    ensures Tail(stream + [n], k) ==
            if |Tail(stream, k)| + 1 > k then (Tail(stream, k) + [n])[1..] else Tail(stream, k) + [n]
  {
  }

  lemma ListsOfAppend(items: seq<Neighbour>, n: Neighbour)
    ensures Indices(items + [n]) == Indices(items) + [n.index]
    ensures Labels(items + [n]) == Labels(items) + [n.y]
    ensures Distances(items + [n]) == Distances(items) + [n.distance]
  {
  }

  lemma ListsOfRest(items: seq<Neighbour>)
    requires items != []
    ensures Indices(items[1..]) == Indices(items)[1..]
    ensures Labels(items[1..]) == Labels(items)[1..]
    ensures Distances(items[1..]) == Distances(items)[1..]
  {
  }

  lemma TakeInSlides(cfg: Config, s: Scan, n: Neighbour, stream: seq<Neighbour>)
    requires IsWindow(cfg, s.store, stream)
    ensures IsWindow(cfg, TakeIn(cfg, s, n).store, stream + [n])
  {
    var last := Tail(stream, Limit(cfg));
    TailOfAppend(stream, n, Limit(cfg));
    ListsOfAppend(last, n);
    ListsOfRest(last + [n]);
  }

  /** Every neighbour accepted within the first n bars is one of those bars, with its own label. */
  ghost predicate FromPast(bars: seq<Bar>, mode: Mode, stream: seq<Neighbour>, n: nat) {
    forall i :: 0 <= i < |stream| ==>
      stream[i].index < n && stream[i].index < |bars| && stream[i].y == Label(bars, stream[i].index, mode)
  }

  lemma {:induction false} ScanSlides(cfg: Config, bars: seq<Bar>, current: nat, store: Store, n: nat,
      stream: seq<Neighbour>)
    requires current < |bars| && n <= WindowLength(cfg, current) && IsWindow(cfg, store, stream)
    ensures var s := ScanTo(cfg, bars, current, store, n);
            IsWindow(cfg, s.store, stream + s.accepted)
  {
    if n == 0 {
      assert stream + [] == stream;
    } else {
      ScanSlides(cfg, bars, current, store, n - 1, stream);
      var s := ScanTo(cfg, bars, current, store, n - 1);
      var c := Candidate(cfg, bars, current, n - 1, s.lastDistance);
      if c.Some? {
        TakeInSlides(cfg, s, c.value, stream + s.accepted);
        assert (stream + s.accepted) + [c.value] == stream + (s.accepted + [c.value]);
      }
    }
  }

  lemma {:induction false} ScanFromPast(cfg: Config, bars: seq<Bar>, current: nat, store: Store, n: nat)
    requires current < |bars| && n <= WindowLength(cfg, current) && Balanced(cfg, store)
    ensures FromPast(bars, cfg.mode, ScanTo(cfg, bars, current, store, n).accepted, current + 1)
  {
    if n > 0 {
      ScanFromPast(cfg, bars, current, store, n - 1);
    }
  }

  lemma {:induction false} SumBound(values: seq<int>)
    requires forall i :: 0 <= i < |values| ==> -1 <= values[i] <= 1
    ensures -|values| <= Sum(values) <= |values|
  {
    if values != [] { SumBound(values[..|values| - 1]); }
  }

  /** The sliding window: after every bar the three lists are the last neighbours of the whole
      accepted stream, no stored bar lies ahead, and the prediction is the sum of the stored labels,
      never larger than the neighbour count. */
  lemma {:induction false} StoreIsSlidingWindow(cfg: Config, bars: seq<Bar>, first: nat, n: nat)
    requires n <= |bars|
    ensures var s := Loop(cfg, bars, first, n);
            && IsWindow(cfg, s.store, Stream(s.accepted))
            && FromPast(bars, cfg.mode, Stream(s.accepted), n)
            && s.prediction == Sum(s.store.labels)
            && 0 - Limit(cfg) <= s.prediction <= Limit(cfg)
  {
    var s := Loop(cfg, bars, first, n);
    if n > 0 {
      StoreIsSlidingWindow(cfg, bars, first, n - 1);
      OneBarSlides(cfg, bars, first, Loop(cfg, bars, first, n - 1));
    }
    WindowSumBound(cfg, bars, s.store, Stream(s.accepted), n);
  }

  lemma OneBarSlides(cfg: Config, bars: seq<Bar>, first: nat, s: State)
    requires |s.signals| < |bars| && |s.barsHeld| == |s.signals|
    requires IsWindow(cfg, s.store, Stream(s.accepted)) && FromPast(bars, cfg.mode, Stream(s.accepted), |s.signals|)
    requires s.prediction == Sum(s.store.labels)
    ensures var next := NextBar(cfg, bars, first, s);
            && IsWindow(cfg, next.store, Stream(next.accepted))
            && FromPast(bars, cfg.mode, Stream(next.accepted), |s.signals| + 1)
            && next.prediction == Sum(next.store.labels)
  {
    var current, next, stream := |s.signals|, NextBar(cfg, bars, first, s), Stream(s.accepted);
    var taken := next.accepted[|s.accepted|];
    if current >= first {
      ScanSlides(cfg, bars, current, s.store, WindowLength(cfg, current), stream);
      ScanFromPast(cfg, bars, current, s.store, WindowLength(cfg, current));
    }
    assert next.accepted[..|s.accepted|] == s.accepted;
    assert Stream(next.accepted) == stream + taken;
    assert stream + [] == stream;
  }

  lemma WindowSumBound(cfg: Config, bars: seq<Bar>, store: Store, stream: seq<Neighbour>, n: nat)
    requires IsWindow(cfg, store, stream) && FromPast(bars, cfg.mode, stream, n)
    ensures 0 - Limit(cfg) <= Sum(store.labels) <= Limit(cfg)
  {
    var window := Tail(stream, Limit(cfg));
    forall i | 0 <= i < |window| ensures -1 <= Labels(window)[i] <= 1 {
      assert window[i] == stream[|stream| - |window| + i];
    }
    SumBound(Labels(window));
  }

  lemma LoopAppends(cfg: Config, bars: seq<Bar>, first: nat, i: nat)
    requires i < |bars|
    ensures Loop(cfg, bars, first, i + 1) == NextBar(cfg, bars, first, Loop(cfg, bars, first, i))
  {
  }

  ghost predicate Extends(a: State, b: State) {
    a.predictions <= b.predictions && a.signals <= b.signals && a.barsHeld <= b.barsHeld
    && a.stores <= b.stores && a.accepted <= b.accepted
  }

  lemma ExtendsFromStart(a: State, b: State, n: nat)
    requires Extends(a, b) && |a.predictions| == |a.signals| == |a.barsHeld| == |a.stores| == |a.accepted| == n
    ensures a.predictions == b.predictions[..n] && a.signals == b.signals[..n] && a.barsHeld == b.barsHeld[..n]
    ensures a.stores == b.stores[..n] && a.accepted == b.accepted[..n]
  {
  }

  lemma BarExtends(cfg: Config, bars: seq<Bar>, first: nat, a: State, i: nat)
    requires i < |bars| && Extends(a, Loop(cfg, bars, first, i))
    ensures Extends(a, Loop(cfg, bars, first, i + 1))
  {
    var s, next := Loop(cfg, bars, first, i), Loop(cfg, bars, first, i + 1);
    LoopAppends(cfg, bars, first, i);
    assert Extends(s, next);
  }

  lemma LoopIsIncremental(cfg: Config, bars: seq<Bar>, first: nat, n: nat, m: nat)
    requires n <= m <= |bars|
    ensures var a, b := Loop(cfg, bars, first, n), Loop(cfg, bars, first, m);
            && a.predictions == b.predictions[..n] && a.signals == b.signals[..n] && a.barsHeld == b.barsHeld[..n]
            && a.stores == b.stores[..n] && a.accepted == b.accepted[..n]
  {
    var a := Loop(cfg, bars, first, n);
    for i := n to m
      invariant Extends(a, Loop(cfg, bars, first, i))
    {
      BarExtends(cfg, bars, first, a, i);
    }
    ExtendsFromStart(a, Loop(cfg, bars, first, m), n);
  }

  /** The walk over a bar's window, with the lists updated in place. */
  method WalkWindow(cfg: Config, bars: seq<Bar>, current: nat, store: Store)
    returns (indices: seq<nat>, labels: seq<int>, distances: seq<real>, accepted: seq<Neighbour>)
    requires current < |bars| && |store.indices| == |store.labels| == |store.distances| <= Limit(cfg)
    ensures var s := ScanTo(cfg, bars, current, store, WindowLength(cfg, current));
            Store(indices, labels, distances) == s.store && accepted == s.accepted
  {
    indices, labels, distances, accepted := store.indices, store.labels, store.distances, [];
    var lastDistance := -1.0;
    for relative := 0 to WindowLength(cfg, current)
      invariant Scan(Store(indices, labels, distances), lastDistance, accepted)
                == ScanTo(cfg, bars, current, store, relative)
    {
      var h := WindowStart(cfg, current) + relative;
      var d := cfg.distance(bars[current].features, bars[h].features);
      if d.Some? && d.value >= lastDistance && AcceptModulo(if IsRolling(cfg.mode) then relative else h, cfg.mode) {
        var y := Label(bars, h, cfg.mode);
        lastDistance := d.value;
        distances := distances + [d.value];
        labels := labels + [y];
        indices := indices + [h];
        accepted := accepted + [Neighbour(h, y, d.value)];
        if |labels| > Limit(cfg) {
          lastDistance := distances[Pivot(cfg)];
          distances, labels, indices := distances[1..], labels[1..], indices[1..];
        }
      }
    }
  }

  /** The main loop of `generate`: prediction, signal and bars held for every bar. */
  method RunLoop(cfg: Config, bars: seq<Bar>)
    returns (predictions: seq<int>, signals: seq<int>, barsHeld: seq<int>, stores: seq<Store>,
      accepted: seq<seq<Neighbour>>)
    ensures var s := Loop(cfg, bars, FirstBar(cfg, |bars|), |bars|);
            && predictions == s.predictions && signals == s.signals && barsHeld == s.barsHeld
            && stores == s.stores && accepted == s.accepted
  {
    var first := FirstBar(cfg, |bars|);
    var store := Store([], [], []);
    var prediction, signal := 0, 0;
    predictions, signals, barsHeld, stores, accepted := [], [], [], [], [];
    for current := 0 to |bars|
      invariant State(store, prediction, signal, predictions, signals, barsHeld, stores, accepted)
                == Loop(cfg, bars, first, current)
    {
      LoopAppends(cfg, bars, first, current);
      var taken := [];
      if current >= first {
        var indices, labels, distances;
        indices, labels, distances, taken := WalkWindow(cfg, bars, current, store);
        store := Store(indices, labels, distances);
        prediction := Sum(labels);
      }
      signal := NextSignal(cfg, signal, prediction, bars[current].filterAll);
      barsHeld := barsHeld + [NextBarsHeld(cfg, barsHeld, signals, signal)];
      predictions, signals := predictions + [prediction], signals + [signal];
      stores, accepted := stores + [store], accepted + [taken];
    }
  }
}
