/**
 * Prices that repaint: for every label mode, every history and every frame length that is not safe, closes whose
 * direction is the only feature, and settings under which a shorter frame shows other rows.
 */
module FrameWitnesses {
  import opened Options
  import Features
  import opened FeatureCausality
  import opened Neighbours
  import opened Lorentz
  import opened NoRepainting
  import opened FrameLength
  import opened PriceFrames
  import opened PriceTurns

  // ---------------------------------------------------------------- counting places of a window

  /** How many of the first k places of a window the modulo test accepts. */
  function AcceptedPlaces(mode: Mode, k: nat): nat {
    if k == 0 then 0 else AcceptedPlaces(mode, k - 1) + if AcceptModulo(k - 1, mode) then 1 else 0
  }

  /** How many bars the window of bar t holds. */
  function Span(maxBarsBack: int, t: nat): nat {
    if t < maxBarsBack then t + 1 else if maxBarsBack > 0 then maxBarsBack else 0
  }

  /** What the first n bars take when every place that is accepted is taken. */
  function TakenBefore(mode: Mode, maxBarsBack: int, n: nat): nat {
    if n == 0 then 0 else TakenBefore(mode, maxBarsBack, n - 1) + AcceptedPlaces(mode, Span(maxBarsBack, n - 1))
  }

  predicate OneInFour(mode: Mode) {
    mode == Modulo1 || mode == Modulo2 || mode == Modulo3
  }

  lemma PlacesOneInFour(mode: Mode, k: nat)
    requires OneInFour(mode) && k <= FirstAccepted(mode) + 4
    ensures AcceptedPlaces(mode, k) == if k <= FirstAccepted(mode) then 0 else 1
  {
    for i := 0 to k
      invariant AcceptedPlaces(mode, i) == if i <= FirstAccepted(mode) then 0 else 1
    {
    }
  }

  lemma PlacesThreeInFour(mode: Mode, k: nat)
    requires FirstAccepted(mode) == 1 && mode != Modulo1 && k <= 5
    ensures AcceptedPlaces(mode, k) == if k == 0 then 0 else if k <= 4 then k - 1 else 3
  {
    for i := 0 to k
      invariant AcceptedPlaces(mode, i) == if i == 0 then 0 else if i <= 4 then i - 1 else 3
    {
    }
  }

  // ---------------------------------------------------------------- prices that fall and then rise

  /** Histories for which falling prices and one rise make a duel. */
  predicate TurnsAt(mode: Mode, maxBarsBack: int, h: nat) {
    && LooksBack(mode) && FirstAccepted(mode) >= 1
    && if IsRolling(mode) && maxBarsBack <= 4 then maxBarsBack >= 3 && h == 4
       else maxBarsBack > h == FirstLabelled(mode)
  }

  function Falling(h: nat, length: nat): (closes: seq<real>)
    ensures |closes| == length && forall i :: 0 <= i < length ==> closes[i] == if i < h then (10 - i) as real else 20.0
  {
    seq(length, i requires 0 <= i => if i < h then (10 - i) as real else 20.0)
  }

  lemma {:induction false} FallingTurns(h: nat, closes: seq<real>, i: nat)
    requires closes == Falling(h, |closes|) && i < |closes| && 2 <= h <= 7 && i <= h
    ensures Turn(closes, i) == if i == 0 then None else if i < h then Some(0.0) else Some(1.0)
  {
  }

  /** Up to the turn the bars are all alike; the turn is apart from all of them; bar zero is out of reach. */
  ghost predicate Turned(core: Config, bars: seq<Bar>, h: nat, far: real) {
    && h < |bars| && far > 0.0
    && forall i, j :: 0 <= i <= h && 0 <= j <= h ==>
         Between(core, bars, i, j) == if i == 0 || j == 0 then None else Some(if (i == h) == (j == h) then 0.0 else far)
  }

  lemma FallingIsTurned(core: Config, scale: real -> real, bars: seq<Bar>, h: nat)
    requires Measures(core, scale) && Grows(scale) && 4 <= h <= 7 && h < |bars| && Shown(bars, Falling(h, |bars|))
    ensures Turned(core, bars, h, scale(1.0)) && bars[h].source != bars[h - 4].source
  {
    var closes := Falling(h, |bars|);
    assert scale(0.0) < scale(1.0);
    forall i, j | 0 <= i <= h && 0 <= j <= h
      ensures Between(core, bars, i, j)
              == if i == 0 || j == 0 then None else Some(if (i == h) == (j == h) then 0.0 else scale(1.0))
    {
      ShownDistance(core, scale, bars, closes, i, j);
      FallingTurns(h, closes, i);
      FallingTurns(h, closes, j);
    }
  }

  ghost predicate Turning(core: Config, bars: seq<Bar>, h: nat, far: real) {
    && TurnsAt(core.mode, core.maxBarsBack, h) && Turned(core, bars, h, far)
    && h < |bars| && bars[h].source != bars[h - 4].source
  }

  lemma WindowSpan(core: Config, t: nat)
    requires core.maxBarsBack >= 1 && (IsRolling(core.mode) || t < core.maxBarsBack)
    ensures WindowLength(core, t) == Span(core.maxBarsBack, t)
    ensures WindowStart(core, t) + WindowLength(core, t) == t + 1
  {
  }

  /** What a place of a window up to the turn offers. */
  lemma TurnOffer(core: Config, bars: seq<Bar>, h: nat, far: real, t: nat, k: nat)
    requires Turning(core, bars, h, far)
    requires t <= h && k < WindowLength(core, t)
    ensures WindowStart(core, t) + k <= t
    ensures var o := Offer(core, bars, t, k);
            && (o.Some? <==> AcceptModulo(k, core.mode))
            && (o.Some? && WindowStart(core, t) + k < h ==>
                  o.value.y == 0 && o.value.distance == if t < h then 0.0 else far)
            && (o.Some? && WindowStart(core, t) + k == h ==> o.value.y != 0 && o.value.distance == 0.0)
  {
    WindowSpan(core, t);
    var index := WindowStart(core, t) + k;
    assert Between(core, bars, t, index)
           == if t == 0 || index == 0 then None else Some(if (t == h) == (index == h) then 0.0 else far);
    if AcceptModulo(k, core.mode) {
      AcceptedIndices(core.mode, k);
    }
  }

  ghost predicate AllAt(offers: seq<Neighbour>, distance: real) {
    forall i :: 0 <= i < |offers| ==> offers[i].y == 0 && offers[i].distance == distance
  }

  lemma TurnOffers(core: Config, bars: seq<Bar>, h: nat, far: real, t: nat, k: nat)
    requires Turning(core, bars, h, far)
    requires t <= h && k <= WindowLength(core, t) && WindowStart(core, t) + k <= h
    ensures |Offers(core, bars, t, k)| == AcceptedPlaces(core.mode, k)
    ensures AllAt(Offers(core, bars, t, k), if t < h then 0.0 else far)
  {
    for i := 0 to k
      invariant |Offers(core, bars, t, i)| == AcceptedPlaces(core.mode, i)
      invariant AllAt(Offers(core, bars, t, i), if t < h then 0.0 else far)
    {
      TurnOffer(core, bars, h, far, t, i);
      OffersAppends(core, bars, t, i);
    }
  }

  lemma TurnTakes(core: Config, bars: seq<Bar>, h: nat, far: real, t: nat)
    requires Turning(core, bars, h, far)
    requires t < h
    ensures |Takes(core, bars, t)| == AcceptedPlaces(core.mode, Span(core.maxBarsBack, t))
        && Plain(Takes(core, bars, t))
  {
    WindowSpan(core, t);
    TurnOffers(core, bars, h, far, t, WindowLength(core, t));
    GreedyLevel(Offers(core, bars, t, WindowLength(core, t)), 0.0);
  }

  lemma TurnGathers(core: Config, bars: seq<Bar>, h: nat, far: real, n: nat)
    requires Turning(core, bars, h, far)
    requires n <= h
    ensures |Gathered(core, bars, 0, n)| == TakenBefore(core.mode, core.maxBarsBack, n)
  {
    for i := 0 to n
      invariant |Gathered(core, bars, 0, i)| == TakenBefore(core.mode, core.maxBarsBack, i)
    {
      TurnGathersNext(core, bars, h, far, i);
    }
  }

  lemma TurnGathersNext(core: Config, bars: seq<Bar>, h: nat, far: real, t: nat)
    requires Turning(core, bars, h, far)
    requires t < h && |Gathered(core, bars, 0, t)| == TakenBefore(core.mode, core.maxBarsBack, t)
    ensures |Gathered(core, bars, 0, t + 1)| == TakenBefore(core.mode, core.maxBarsBack, t + 1)
  {
    GatheredAppends(core, bars, 0, t);
    TakenNext(core.mode, core.maxBarsBack, t);
    TurnTakes(core, bars, h, far, t);
  }

  lemma TurnDuel(core: Config, bars: seq<Bar>, h: nat, far: real)
    requires Turning(core, bars, h, far)
    requires AcceptedPlaces(core.mode, Span(core.maxBarsBack, h) - 1) >= 1
    ensures var offers := Offers(core, bars, h, WindowLength(core, h));
            Duel(offers, far) && |offers| == AcceptedPlaces(core.mode, Span(core.maxBarsBack, h) - 1) + 1
  {
    WindowSpan(core, h);
    var k := WindowLength(core, h) - 1;
    TurnOffers(core, bars, h, far, h, k);
    TurnOffer(core, bars, h, far, h, k);
    OffersAppends(core, bars, h, k);
    LastPlaceAccepted(core.mode, core.maxBarsBack, h);
    DuelOf(Offers(core, bars, h, k), Offer(core, bars, h, k).value, far);
  }

  lemma LastPlaceAccepted(mode: Mode, maxBarsBack: int, h: nat)
    requires TurnsAt(mode, maxBarsBack, h)
    ensures Span(maxBarsBack, h) >= 1 && AcceptModulo(Span(maxBarsBack, h) - 1, mode)
  {
  }

  lemma DuelOf(fars: seq<Neighbour>, labelled: Neighbour, far: real)
    requires fars != [] && AllAt(fars, far) && far > 0.0 && labelled.y != 0 && labelled.distance == 0.0
    ensures Duel(fars + [labelled], far)
  {
  }

  /** A store with room for all that the bars before the turn took and all but one of the far ones. */
  function TurnCount(mode: Mode, maxBarsBack: int, h: nat): int
    requires TurnsAt(mode, maxBarsBack, h)
  {
    TakenBefore(mode, maxBarsBack, h) + AcceptedPlaces(mode, Span(maxBarsBack, h) - 1) - 1
  }

  lemma TakenOneInFour(mode: Mode, maxBarsBack: int, n: nat)
    requires OneInFour(mode) && n <= FirstAccepted(mode) + 4 && n <= maxBarsBack
    ensures TakenBefore(mode, maxBarsBack, n) == if n <= FirstAccepted(mode) then 0 else n - FirstAccepted(mode)
  {
    for i := 0 to n
      invariant TakenBefore(mode, maxBarsBack, i) == if i <= FirstAccepted(mode) then 0 else i - FirstAccepted(mode)
    {
      PlacesOneInFour(mode, i + 1);
    }
  }

  /** One, two and three places, and from then on as many as the history holds. */
  function TakenByFive(maxBarsBack: int, n: nat): nat {
    if n <= 1 then 0 else if n == 2 then 1 else if n == 3 then 3
    else if n == 4 then if maxBarsBack == 3 then 5 else 6
    else if maxBarsBack == 3 then 7 else 9
  }

  lemma TakenThreeInFour(mode: Mode, maxBarsBack: int, n: nat)
    requires FirstAccepted(mode) == 1 && mode != Modulo1 && n <= 5 && maxBarsBack >= 3
    ensures TakenBefore(mode, maxBarsBack, n) == TakenByFive(maxBarsBack, n)
  {
    for i := 0 to n
      invariant TakenBefore(mode, maxBarsBack, i) == TakenByFive(maxBarsBack, i)
    {
      PlacesThreeInFour(mode, Span(maxBarsBack, i));
      TakenNext(mode, maxBarsBack, i);
    }
  }

  lemma TakenNext(mode: Mode, maxBarsBack: int, n: nat)
    ensures TakenBefore(mode, maxBarsBack, n + 1)
            == TakenBefore(mode, maxBarsBack, n) + AcceptedPlaces(mode, Span(maxBarsBack, n))
  {
  }

  /** The far ones are few enough for a near one to stand at three quarters of the store. */
  lemma TurnBalance(mode: Mode, maxBarsBack: int, h: nat)
    requires TurnsAt(mode, maxBarsBack, h)
    ensures var m := AcceptedPlaces(mode, Span(maxBarsBack, h) - 1);
            m >= 1 && TakenBefore(mode, maxBarsBack, h) >= 3 * m
  {
    if OneInFour(mode) {
      BalanceOneInFour(mode, maxBarsBack, h);
    } else {
      BalanceThreeInFour(mode, maxBarsBack, h);
    }
  }

  lemma BalanceOneInFour(mode: Mode, maxBarsBack: int, h: nat)
    requires TurnsAt(mode, maxBarsBack, h) && OneInFour(mode)
    ensures AcceptedPlaces(mode, Span(maxBarsBack, h) - 1) == 1 && TakenBefore(mode, maxBarsBack, h) == 4
  {
    TakenOneInFour(mode, maxBarsBack, h);
    PlacesOneInFour(mode, h);
  }

  lemma BalanceThreeInFour(mode: Mode, maxBarsBack: int, h: nat)
    requires TurnsAt(mode, maxBarsBack, h) && !OneInFour(mode)
    ensures var m := AcceptedPlaces(mode, Span(maxBarsBack, h) - 1);
            m >= 1 && TakenBefore(mode, maxBarsBack, h) >= 3 * m
  {
    TakenThreeInFour(mode, maxBarsBack, h);
    PlacesThreeInFour(mode, Span(maxBarsBack, h) - 1);
  }

  lemma TurnStarts(core: Config, bars: seq<Bar>, h: nat, far: real, t: nat)
    requires Turning(core, bars, h, far)
    requires t <= FirstAccepted(core.mode)
    ensures t < FirstAccepted(core.mode) ==> Takes(core, bars, t) == []
    ensures t == FirstAccepted(core.mode) ==> Takes(core, bars, t) != []
  {
    TurnTakes(core, bars, h, far, t);
    if OneInFour(core.mode) {
      PlacesOneInFour(core.mode, t + 1);
    } else {
      PlacesThreeInFour(core.mode, t + 1);
    }
  }

  lemma TurnFirst(core: Config, bars: seq<Bar>, h: nat, far: real, a: nat)
    requires Turning(core, bars, h, far)
    requires a == FirstAccepted(core.mode)
    ensures a < h && Takes(core, bars, a) != [] && forall t :: 0 <= t < a ==> Takes(core, bars, t) == []
    ensures forall t :: 0 <= t < h ==> Plain(Takes(core, bars, t))
  {
    TurnStarts(core, bars, h, far, a);
    forall t | 0 <= t < a ensures Takes(core, bars, t) == [] {
      TurnStarts(core, bars, h, far, t);
    }
    forall t | 0 <= t < h ensures Plain(Takes(core, bars, t)) {
      TurnTakes(core, bars, h, far, t);
    }
  }

  lemma TurnDuelAt(core: Config, bars: seq<Bar>, h: nat, far: real)
    requires Turning(core, bars, h, far)
    requires core.neighborsCount == TurnCount(core.mode, core.maxBarsBack, h)
    ensures DuelAt(core, bars, FirstAccepted(core.mode), h, far)
  {
    TurnBalance(core.mode, core.maxBarsBack, h);
    TurnDuel(core, bars, h, far);
    TurnGathers(core, bars, h, far, h);
    TurnFirst(core, bars, h, far, FirstAccepted(core.mode));
    PivotBelow(core, TakenBefore(core.mode, core.maxBarsBack, h),
               AcceptedPlaces(core.mode, Span(core.maxBarsBack, h) - 1));
  }

  lemma PivotBelow(core: Config, total: nat, m: nat)
    requires m >= 1 && total >= 3 * m && core.neighborsCount == total + m - 1
    ensures Limit(core) == total + m - 1 && Pivot(core) < total
  {
  }

  lemma FallingRepaints(cfg: Settings, scale: real -> real, bars: seq<Bar>, h: nat, n: nat)
    requires Measures(cfg.core, scale) && Grows(scale) && TurnsAt(cfg.core.mode, cfg.core.maxBarsBack, h)
    requires cfg.core.neighborsCount == TurnCount(cfg.core.mode, cfg.core.maxBarsBack, h)
    requires |bars| >= cfg.core.maxBarsBack + 2 + FirstAccepted(cfg.core.mode) && n == h + 1
    requires Shown(bars, Falling(h, |bars|))
    ensures n <= |bars| && Rows(cfg, bars[..n]) != Rows(cfg, bars)[..n]
  {
    FallingIsTurned(cfg.core, scale, bars, h);
    TurnDuelAt(cfg.core, bars, h, scale(1.0));
    DuelShows(cfg.core, bars, FirstAccepted(cfg.core.mode), h, scale(1.0), n);
    PredictionsDiffer(cfg, bars, n, h);
  }

  // ---------------------------------------------------------------- prices that stand still and then move

  function Step(m: nat, length: nat): (closes: seq<real>)
    ensures |closes| == length && forall i :: 0 <= i < length ==> closes[i] == if i < m then 10.0 else 20.0
  {
    seq(length, i requires 0 <= i => if i < m then 10.0 else 20.0)
  }

  lemma {:induction false} StepTurns(m: nat, closes: seq<real>, i: nat)
    requires closes == Step(m, |closes|) && i < |closes| && m >= 1
    ensures Turn(closes, i) == if i < m then None else Some(1.0)
  {
    if i > 0 { StepTurns(m, closes, i - 1); }
  }

  /** Before bar m every bar is out of reach, and from then on all are alike. */
  ghost predicate Stepped(core: Config, bars: seq<Bar>, m: nat) {
    && 4 <= m < |bars| && bars[m].source != bars[m - 4].source
    && forall i, j :: 0 <= i < |bars| && 0 <= j < |bars| ==>
         Between(core, bars, i, j) == if i < m || j < m then None else Some(0.0)
  }

  lemma StepIsStepped(core: Config, scale: real -> real, bars: seq<Bar>, m: nat)
    requires Measures(core, scale) && Grows(scale) && 4 <= m < |bars| && Shown(bars, Step(m, |bars|))
    ensures Stepped(core, bars, m)
  {
    var closes := Step(m, |bars|);
    forall i, j | 0 <= i < |bars| && 0 <= j < |bars|
      ensures Between(core, bars, i, j) == if i < m || j < m then None else Some(0.0)
    {
      ShownDistance(core, scale, bars, closes, i, j);
      StepTurns(m, closes, i);
      StepTurns(m, closes, j);
    }
  }

  lemma SteppedPrefix(core: Config, bars: seq<Bar>, m: nat, n: nat)
    requires Stepped(core, bars, m) && m < n <= |bars|
    ensures Stepped(core, bars[..n], m)
  {
    forall i, j | 0 <= i < n && 0 <= j < n ensures Between(core, bars[..n], i, j) == Between(core, bars, i, j) {
    }
  }

  /** Places up to p that hold bars before the step, or that the modulo test refuses. */
  ghost predicate Quiet(core: Config, m: nat, t: nat, k: nat) {
    WindowStart(core, t) + k < m || t < m || !AcceptModulo(k, core.mode)
  }

  lemma QuietOffer(core: Config, bars: seq<Bar>, m: nat, t: nat, k: nat)
    requires Stepped(core, bars, m) && t < |bars| && WindowStart(core, t) + k <= t && Quiet(core, m, t, k)
    ensures Offer(core, bars, t, k).None?
  {
    var index := WindowStart(core, t) + k;
    assert Between(core, bars, t, index) == if t < m || index < m then None else Some(0.0);
  }

  /** Bar t is the first to accept a bar at or after the step: the one at place p of its window, which is bar m. */
  ghost predicate StepsIn(core: Config, m: nat, t: nat, p: nat) {
    && LooksBack(core.mode) && core.maxBarsBack >= 1 && (IsRolling(core.mode) || t < core.maxBarsBack)
    && m <= t && p < WindowLength(core, t) && WindowStart(core, t) + p == m && AcceptModulo(p, core.mode)
    && (forall k :: p < k < WindowLength(core, t) ==> !AcceptModulo(k, core.mode))
    && forall j, k :: 0 <= j < t && 0 <= k < WindowLength(core, j) ==> Quiet(core, m, j, k)
  }

  lemma StepTakesNothing(core: Config, bars: seq<Bar>, m: nat, t: nat, p: nat, j: nat)
    requires Stepped(core, bars, m) && j < t < |bars| && StepsIn(core, m, t, p)
    ensures Takes(core, bars, j) == []
  {
    WindowSpan(core, j);
    for k := 0 to WindowLength(core, j)
      invariant Offers(core, bars, j, k) == []
    {
      assert Quiet(core, m, j, k);
      QuietOffer(core, bars, m, j, k);
      OffersAppends(core, bars, j, k);
    }
  }

  lemma StepOffer(core: Config, bars: seq<Bar>, m: nat, t: nat, p: nat, k: nat)
    requires Stepped(core, bars, m) && t < |bars| && StepsIn(core, m, t, p) && k < WindowLength(core, t)
    ensures WindowStart(core, t) + k <= t
    ensures Offer(core, bars, t, k) == if k == p then Some(Neighbour(m, Label(bars, m, core.mode), 0.0)) else None
  {
    WindowSpan(core, t);
    if k == p {
      assert Between(core, bars, t, m) == Some(0.0);
    } else {
      QuietOffer(core, bars, m, t, k);
    }
  }

  lemma StepOffers(core: Config, bars: seq<Bar>, m: nat, t: nat, p: nat)
    requires Stepped(core, bars, m) && t < |bars| && StepsIn(core, m, t, p)
    ensures Offers(core, bars, t, WindowLength(core, t)) == [Neighbour(m, Label(bars, m, core.mode), 0.0)]
  {
    var sole := Neighbour(m, Label(bars, m, core.mode), 0.0);
    StepSolePlace(core, bars, m, t, p, sole);
    OffersOfSole(core, bars, t, p, sole, WindowLength(core, t));
  }

  lemma StepSolePlace(core: Config, bars: seq<Bar>, m: nat, t: nat, p: nat, sole: Neighbour)
    requires Stepped(core, bars, m) && t < |bars| && StepsIn(core, m, t, p)
    requires sole == Neighbour(m, Label(bars, m, core.mode), 0.0)
    ensures SolePlace(core, bars, t, p, sole) && p < WindowLength(core, t)
  {
    forall k | 0 <= k < WindowLength(core, t)
      ensures WindowStart(core, t) + k <= t && Offer(core, bars, t, k) == if k == p then Some(sole) else None
    {
      StepOffer(core, bars, m, t, p, k);
    }
  }

  lemma StepSole(core: Config, bars: seq<Bar>, m: nat, t: nat, p: nat)
    requires Stepped(core, bars, m) && t < |bars| && StepsIn(core, m, t, p)
    ensures SoleAt(core, bars, t)
  {
    StepOffers(core, bars, m, t, p);
    LabelMoves(bars, m, core.mode);
    forall j | 0 <= j < t ensures Takes(core, bars, j) == [] {
      StepTakesNothing(core, bars, m, t, p, j);
    }
  }

  lemma StepRepaints(cfg: Settings, scale: real -> real, bars: seq<Bar>, m: nat, t: nat, p: nat, n: nat)
    requires Measures(cfg.core, scale) && Grows(scale) && cfg.core.neighborsCount >= 1 && 4 <= m <= t < n <= |bars|
    requires StepsIn(cfg.core, m, t, p) && Shown(bars, Step(m, |bars|))
    requires FirstBar(cfg.core, n) <= t < FirstBar(cfg.core, |bars|)
    ensures Rows(cfg, bars[..n]) != Rows(cfg, bars)[..n]
  {
    StepIsStepped(cfg.core, scale, bars, m);
    SteppedPrefix(cfg.core, bars, m, n);
    StepSole(cfg.core, bars[..n], m, t, p);
    SoleShows(cfg.core, bars, t, n);
    PredictionsDiffer(cfg, bars, n, t);
  }

  /** Where the first label comes in: at the first labelled index itself, or, with rolling windows of five, one bar
      later, because the window refuses its fifth place. */
  function StepBar(mode: Mode, maxBarsBack: int): nat {
    if IsRolling(mode) && maxBarsBack == 5 then 4 else FirstLabelledBar(mode, maxBarsBack)
  }

  lemma FirstStepComesIn(core: Config) returns (p: nat)
    requires LooksBack(core.mode) && !Muted(core.mode, core.maxBarsBack, 0)
    ensures StepsIn(core, StepBar(core.mode, core.maxBarsBack), FirstLabelledBar(core.mode, core.maxBarsBack), p)
  {
    var t := FirstLabelledBar(core.mode, core.maxBarsBack);
    WindowSpan(core, t);
    p := StepBar(core.mode, core.maxBarsBack) - WindowStart(core, t);
  }

  // ---------------------------------------------------------------- rolling windows of five

  /** Down once and then up for good: bars two and later are apart from bar one only. */
  function Rebound(length: nat): (closes: seq<real>)
    ensures |closes| == length
    ensures forall i :: 0 <= i < length ==> closes[i] == if i == 0 then 10.0 else if i == 1 then 9.0 else 20.0
  {
    seq(length, i requires 0 <= i => if i == 0 then 10.0 else if i == 1 then 9.0 else 20.0)
  }

  lemma {:induction false} ReboundTurns(closes: seq<real>, i: nat)
    requires closes == Rebound(|closes|) && i < |closes|
    ensures Turn(closes, i) == if i == 0 then None else if i == 1 then Some(0.0) else Some(1.0)
  {
    if i > 0 { ReboundTurns(closes, i - 1); }
  }

  ghost predicate Rebounds(core: Config, bars: seq<Bar>, far: real) {
    && far > 0.0 && |bars| >= 6 && IsRolling(core.mode) && core.maxBarsBack == 5
    && bars[4].source != bars[0].source
    && forall i, j :: 0 <= i < 6 && 0 <= j < 6 ==>
         Between(core, bars, i, j) == if i == 0 || j == 0 then None else Some(if (i == 1) == (j == 1) then 0.0 else far)
  }

  lemma ReboundIsOne(core: Config, scale: real -> real, bars: seq<Bar>)
    requires Measures(core, scale) && Grows(scale) && |bars| >= 6 && IsRolling(core.mode) && core.maxBarsBack == 5
    requires Shown(bars, Rebound(|bars|))
    ensures Rebounds(core, bars, scale(1.0))
  {
    var closes := Rebound(|bars|);
    assert scale(0.0) < scale(1.0);
    forall i, j | 0 <= i < 6 && 0 <= j < 6
      ensures Between(core, bars, i, j)
              == if i == 0 || j == 0 then None else Some(if (i == 1) == (j == 1) then 0.0 else scale(1.0))
    {
      ShownDistance(core, scale, bars, closes, i, j);
      ReboundTurns(closes, i);
      ReboundTurns(closes, j);
    }
  }

  lemma ReboundOffer(core: Config, bars: seq<Bar>, far: real, t: nat, k: nat)
    requires Rebounds(core, bars, far) && t <= 5 && k < WindowLength(core, t)
    ensures WindowStart(core, t) == (if t < 5 then 0 else 1) && WindowLength(core, t) == (if t < 5 then t + 1 else 5)
    ensures var o, index := Offer(core, bars, t, k), WindowStart(core, t) + k;
            && (o.Some? <==> t > 0 && 1 <= k <= 3)
            && (o.Some? ==> o.value.distance == if (t == 1) == (index == 1) then 0.0 else far)
            && (o.Some? ==> (o.value.y == 0 <==> index < 4))
  {
    var index := WindowStart(core, t) + k;
    assert Between(core, bars, t, index)
           == if t == 0 || index == 0 then None else Some(if (t == 1) == (index == 1) then 0.0 else far);
  }

  /** Each bar up to bar four takes bar one only. */
  lemma ReboundTakes(core: Config, bars: seq<Bar>, far: real, t: nat)
    requires Rebounds(core, bars, far) && t <= 4
    ensures t == 0 ==> Takes(core, bars, t) == []
    ensures t >= 1 ==> |Takes(core, bars, t)| == 1 && AllAt(Takes(core, bars, t), if t == 1 then 0.0 else far)
  {
    ReboundOffer(core, bars, far, t, 0);
    ReboundGreedy(core, bars, far, t, WindowLength(core, t));
  }

  /** The only neighbour bar t takes of its first k places. */
  ghost predicate OnlyFirst(taken: seq<Neighbour>, t: nat, k: nat, distance: real) {
    && |taken| == (if t == 0 || k <= 1 then 0 else 1) && AllAt(taken, distance)
  }

  lemma ReboundGreedy(core: Config, bars: seq<Bar>, far: real, t: nat, k: nat)
    requires Rebounds(core, bars, far) && t <= 4 && k <= WindowLength(core, t)
    ensures OnlyFirst(Greedy(Offers(core, bars, t, k)), t, k, if t == 1 then 0.0 else far)
  {
    for i := 0 to k
      invariant OnlyFirst(Greedy(Offers(core, bars, t, i)), t, i, if t == 1 then 0.0 else far)
    {
      ReboundGreedyNext(core, bars, far, t, i);
    }
  }

  lemma ReboundGreedyNext(core: Config, bars: seq<Bar>, far: real, t: nat, k: nat)
    requires Rebounds(core, bars, far) && t <= 4 && k < WindowLength(core, t)
    requires OnlyFirst(Greedy(Offers(core, bars, t, k)), t, k, if t == 1 then 0.0 else far)
    ensures OnlyFirst(Greedy(Offers(core, bars, t, k + 1)), t, k + 1, if t == 1 then 0.0 else far)
  {
    ReboundOffer(core, bars, far, t, k);
    OffersAppends(core, bars, t, k);
    GreedyNext(Offers(core, bars, t, k), Offer(core, bars, t, k));
    OnlyFirstNext(Greedy(Offers(core, bars, t, k)), Offer(core, bars, t, k), t, k, if t == 1 then 0.0 else far);
  }

  lemma OnlyFirstNext(taken: seq<Neighbour>, o: Option<Neighbour>, t: nat, k: nat, distance: real)
    requires OnlyFirst(taken, t, k, distance) && (o.Some? <==> t > 0 && 1 <= k <= 3) && distance >= 0.0
    requires k == 1 && o.Some? ==> o.value.y == 0 && o.value.distance == distance
    requires k >= 2 && o.Some? ==> o.value.distance < distance
    ensures OnlyFirst(taken + if o.Some? && o.value.distance >= Newest(taken, -1.0) then [o.value] else [],
        t, k + 1, distance)
  {
    assert taken + [] == taken;
  }

  lemma GreedyNext(offers: seq<Neighbour>, o: Option<Neighbour>)
    ensures var next := offers + if o.Some? then [o.value] else [];
            Greedy(next) == Greedy(offers)
                            + if o.Some? && o.value.distance >= Newest(Greedy(offers), -1.0) then [o.value] else []
  {
    if o.Some? {
      assert (offers + [o.value])[..|offers|] == offers;
    } else {
      assert offers + [] == offers;
    }
  }

  /** What is gathered by bar five: bar one at no distance, if it was worked on, and then bar one from afar. */
  lemma ReboundGathers(core: Config, bars: seq<Bar>, far: real, first: nat, n: nat)
    requires Rebounds(core, bars, far) && n <= 5
    ensures var taken, late := Gathered(core, bars, first, n), if first <= 1 then 1 else first;
            && |taken| == (if n <= late then 0 else n - late)
            && forall i :: 0 <= i < |taken|
                 ==> taken[i].y == 0 && taken[i].distance == if first <= 1 && i == 0 then 0.0 else far
  {
    for j := 0 to n
      invariant |Gathered(core, bars, first, j)| == if j <= (if first <= 1 then 1 else first)
          then 0 else j - (if first <= 1 then 1 else first)
      invariant forall i :: 0 <= i < |Gathered(core, bars, first, j)| ==>
                  && Gathered(core, bars, first, j)[i].y == 0
                  && Gathered(core, bars, first, j)[i].distance == if first <= 1 && i == 0 then 0.0 else far
    {
      GatheredAppends(core, bars, first, j);
      ReboundTakes(core, bars, far, j);
    }
  }

  lemma ReboundOffers(core: Config, bars: seq<Bar>, far: real)
    requires Rebounds(core, bars, far)
    ensures var offers := Offers(core, bars, 5, WindowLength(core, 5));
            && |offers| == 3 && offers[0].y == 0 == offers[1].y && offers[2].y != 0
            && offers[0].distance == offers[1].distance == offers[2].distance == 0.0
  {
    for i := 0 to WindowLength(core, 5)
      invariant |Offers(core, bars, 5, i)| == if i == 0 then 0 else if i <= 4 then i - 1 else 3
      invariant forall j :: 0 <= j < |Offers(core, bars, 5, i)| ==>
                  && Offers(core, bars, 5, i)[j].distance == 0.0
                  && (Offers(core, bars, 5, i)[j].y == 0 <==> j < 2)
    {
      ReboundOffer(core, bars, far, 5, i);
      OffersAppends(core, bars, 5, i);
    }
    ReboundOffer(core, bars, far, 5, 0);
  }

  /** On a store that bar one fills from afar, the first offer is one too many and keeps the others out. */
  lemma FarStoreRefuses(cfg: Config, taken: seq<Neighbour>, a: Neighbour, b: Neighbour, c: Neighbour, far: real)
    requires Limit(cfg) == 4 == |taken| && far > 0.0 && taken[3].distance == far
    requires forall i :: 0 <= i < 4 ==> taken[i].y == 0
    requires a.y == 0 && a.distance == 0.0 && b.distance == 0.0 && c.distance == 0.0
    ensures Sum(Play(cfg, Scan(StoreOf(taken), -1.0, []), [] + [a] + [b] + [c]).store.labels) == 0
  {
    var s := Scan(StoreOf(taken), -1.0, []);
    PlayLast(cfg, s, [], a);
    PlayLast(cfg, s, [] + [a], b);
    PlayLast(cfg, s, [] + [a] + [b], c);
    assert TakeIn(cfg, s, a).lastDistance == far by {
      ListsOfAppend(taken, a);
      assert Pivot(cfg) == 3;
    }
    SumOfZeros(TakeIn(cfg, s, a).store.labels);
  }

  lemma SecondAtNoDistance(cfg: Config, s: Scan, taken: seq<Neighbour>, a: Neighbour, b: Neighbour)
    requires Limit(cfg) == 4 > |taken| && s.store == StoreOf(taken + [a])
    requires (forall i :: 0 <= i < |taken| ==> taken[i].y == 0)
    requires a.y == 0 && a.distance == 0.0 && b.y == 0 && b.distance == 0.0
    ensures NoLabels(TakeIn(cfg, s, b).store) && TakeIn(cfg, s, b).lastDistance == 0.0
    ensures Balanced(cfg, TakeIn(cfg, s, b).store)
  {
    ListsOfAppend(taken + [a], b);
    assert Pivot(cfg) == 3;
  }

  /** With room for it the first offer lets the others in. */
  lemma RoomLetsIn(cfg: Config, taken: seq<Neighbour>, a: Neighbour, b: Neighbour, c: Neighbour, far: real)
    requires Limit(cfg) == 4 > |taken| && AllAt(taken, far)
    requires a.y == 0 && a.distance == 0.0 && b.y == 0 && b.distance == 0.0 && c.distance == 0.0
    ensures Sum(Play(cfg, Scan(StoreOf(taken), -1.0, []), [] + [a] + [b] + [c]).store.labels) == c.y
  {
    var s := Scan(StoreOf(taken), -1.0, []);
    PlayLast(cfg, s, [], a);
    StoreOfAppend(taken, a);
    PlayLast(cfg, s, [] + [a], b);
    SecondAtNoDistance(cfg, Play(cfg, s, [] + [a]), taken, a, b);
    PlayLast(cfg, s, [] + [a] + [b], c);
    ThirdIsSum(cfg, Play(cfg, s, [] + [a] + [b]), c);
  }

  lemma ThirdIsSum(cfg: Config, s: Scan, n: Neighbour)
    requires Limit(cfg) >= 1 && Balanced(cfg, s.store) && NoLabels(s.store)
    ensures Sum(TakeIn(cfg, s, n).store.labels) == n.y
  {
    SumOfZerosAndOne(TakeIn(cfg, s, n).store.labels);
  }

  lemma ThreeOffers(offers: seq<Neighbour>)
    requires |offers| == 3
    ensures offers == [] + [offers[0]] + [offers[1]] + [offers[2]]
  {
  }

  lemma ReboundPredicts(core: Config, bars: seq<Bar>, far: real, first: nat)
    requires Rebounds(core, bars, far) && core.neighborsCount == 4 && first <= 5
    ensures Loop(core, bars, first, 6).predictions[5] == 0 <==> first <= 1
  {
    var taken, offers := Gathered(core, bars, first, 5), Offers(core, bars, 5, WindowLength(core, 5));
    ReboundGathers(core, bars, far, first, 5);
    ReboundOffers(core, bars, far);
    PredictsFromGathered(core, bars, first, 5, taken, offers);
    ThreeOffers(offers);
    if first <= 1 {
      FarStoreRefuses(core, taken, offers[0], offers[1], offers[2], far);
    } else {
      RoomLetsIn(core, taken, offers[0], offers[1], offers[2], far);
    }
  }

  lemma ReboundRepaints(cfg: Settings, scale: real -> real, bars: seq<Bar>, n: nat)
    requires Measures(cfg.core, scale) && Grows(scale) && IsRolling(cfg.core.mode) && cfg.core.maxBarsBack == 5
    requires cfg.core.neighborsCount == 4 && 8 <= |bars| <= 11 && n == 6 && Shown(bars, Rebound(|bars|))
    ensures Rows(cfg, bars[..n]) != Rows(cfg, bars)[..n]
  {
    ReboundIsOne(cfg.core, scale, bars);
    ReboundPrefix(cfg.core, bars, scale(1.0), n);
    ReboundPredicts(cfg.core, bars[..n], scale(1.0), FirstBar(cfg.core, n));
    ReboundPredicts(cfg.core, bars, scale(1.0), FirstBar(cfg.core, |bars|));
    PredictionsDiffer(cfg, bars, n, 5);
  }

  lemma ReboundPrefix(core: Config, bars: seq<Bar>, far: real, n: nat)
    requires Rebounds(core, bars, far) && 6 <= n <= |bars|
    ensures Rebounds(core, bars[..n], far)
  {
    forall i, j | 0 <= i < 6 && 0 <= j < 6 ensures Between(core, bars[..n], i, j) == Between(core, bars, i, j) {
    }
  }

  // ---------------------------------------------------------------- labels that look ahead

  function Rising(length: nat): (closes: seq<real>)
    ensures |closes| == length && forall i :: 0 <= i < length ==> closes[i] == (10 + i) as real
  {
    seq(length, i requires 0 <= i => (10 + i) as real)
  }

  /** On rising prices all bars but the first are alike, and every label that can look ahead says the same. */
  ghost predicate Rises(core: Config, bars: seq<Bar>, ahead: int) {
    && (forall i, j :: 0 <= i < |bars| && 0 <= j < |bars| ==>
          Between(core, bars, i, j) == if i == 0 || j == 0 then None else Some(0.0))
    && (forall i :: 0 <= i < |bars| ==> Label(bars, i, core.mode) == if i + 4 < |bars| then ahead else 0)
  }

  lemma RisingRises(core: Config, scale: real -> real, bars: seq<Bar>)
    requires Measures(core, scale) && Grows(scale) && !LooksBack(core.mode) && Shown(bars, Rising(|bars|))
    ensures Rises(core, bars, if core.mode == LabelForward then 1 else -1)
  {
    var closes := Rising(|bars|);
    forall i, j | 0 <= i < |bars| && 0 <= j < |bars|
      ensures Between(core, bars, i, j) == if i == 0 || j == 0 then None else Some(0.0)
    {
      ShownDistance(core, scale, bars, closes, i, j);
    }
  }

  /** All labels are zero or `ahead`, the first of them `ahead`, and none is far. */
  ghost predicate Agree(offers: seq<Neighbour>, ahead: int) {
    && (forall i :: 0 <= i < |offers| ==> offers[i].distance == 0.0 && offers[i].y in {0, ahead})
    && (offers != [] ==> offers[0].y == ahead)
  }

  lemma {:induction false} AgreeingSum(offers: seq<Neighbour>, ahead: int)
    requires Agree(offers, ahead) && offers != [] && (ahead == 1 || ahead == -1)
    ensures Sum(Labels(offers)) * ahead >= 1
  {
    var init := offers[..|offers| - 1];
    assert Labels(offers)[..|offers| - 1] == Labels(init);
    if init != [] {
      AgreeingSum(init, ahead);
    } else {
      assert Sum(Labels(init)) == 0;
    }
  }

  lemma RisingOffers(core: Config, bars: seq<Bar>, ahead: int, t: nat, k: nat)
    requires !LooksBack(core.mode) && core.maxBarsBack >= 2 && Rises(core, bars, ahead) && |bars| >= 6 && t <= 4
    requires k <= WindowLength(core, t)
    ensures t == 0 ==> Offers(core, bars, t, k) == []
    ensures t >= 1 ==> Agree(Offers(core, bars, t, k), ahead) && |Offers(core, bars, t, k)| <= 3
    ensures t >= 1 && k >= 2 ==> Offers(core, bars, t, k) != []
  {
    for i := 0 to k
      invariant t == 0 ==> Offers(core, bars, t, i) == []
      invariant t >= 1 ==> Agree(Offers(core, bars, t, i), ahead)
      invariant |Offers(core, bars, t, i)| == if t == 0 || i == 0 then 0 else if i <= 4 then i - 1 else 3
    {
      assert Between(core, bars, t, i) == if t == 0 || i == 0 then None else Some(0.0);
      assert Label(bars, i, core.mode) == if i + 4 < |bars| then ahead else 0;
      OffersAppends(core, bars, t, i);
    }
  }

  /** The first bar worked on, if it comes early, predicts what the labels say. */
  lemma RisingPredicts(core: Config, bars: seq<Bar>, ahead: int, t: nat)
    requires !LooksBack(core.mode) && core.maxBarsBack >= 2 && core.neighborsCount == 3
    requires Rises(core, bars, ahead) && |bars| >= 6 && (ahead == 1 || ahead == -1)
    requires 1 <= t <= 4 && FirstBar(core, |bars|) <= t && (t == 1 || t == FirstBar(core, |bars|))
    ensures PredictedAt(core, bars, t) != 0
  {
    var first, offers := FirstBar(core, |bars|), Offers(core, bars, t, WindowLength(core, t));
    RisingOffers(core, bars, ahead, t, WindowLength(core, t));
    RisingStartsEmpty(core, bars, ahead, first, t);
    PredictsFromGathered(core, bars, first, t, [], offers);
    AgreeingPlay(core, offers, ahead);
  }

  lemma AgreeingPlay(cfg: Config, offers: seq<Neighbour>, ahead: int)
    requires Agree(offers, ahead) && 1 <= |offers| <= Limit(cfg) && (ahead == 1 || ahead == -1)
    ensures Sum(Play(cfg, Scan(StoreOf([]), -1.0, []), offers).store.labels) != 0
  {
    GreedyLevel(offers, 0.0);
    PlayWithRoom(cfg, [], offers);
    assert [] + offers == offers;
    AgreeingSum(offers, ahead);
  }

  lemma RisingStartsEmpty(core: Config, bars: seq<Bar>, ahead: int, first: nat, t: nat)
    requires !LooksBack(core.mode) && core.maxBarsBack >= 2 && Rises(core, bars, ahead) && |bars| >= 6
    requires 1 <= t <= 4 && (t == 1 || t == first)
    ensures Gathered(core, bars, first, t) == []
  {
    for i := 0 to t
      invariant Gathered(core, bars, first, i) == []
    {
      GatheredAppends(core, bars, first, i);
      RisingOffers(core, bars, ahead, i, WindowLength(core, i));
    }
  }

  lemma MutedPredictsNothing(core: Config, bars: seq<Bar>, t: nat)
    requires t < |bars| && Muted(core.mode, core.maxBarsBack, |bars|)
    ensures PredictedAt(core, bars, t) == 0
  {
    MutedSeries(core, bars, FirstBar(core, |bars|));
    SeriesPredicts(core, bars, t);
  }

  /** The bar at which a frame of rising prices shows a label first. */
  function RiseBar(first: nat): nat {
    if first < 1 then 1 else first
  }

  function RisePrefix(core: Config, length: nat): nat {
    if FirstBar(core, length) <= 4 then RiseBar(FirstBar(core, length)) + 1 else 6
  }

  lemma RisingEarly(core: Config, scale: real -> real, bars: seq<Bar>, t: nat, n: nat)
    requires Measures(core, scale) && Grows(scale) && !LooksBack(core.mode) && core.maxBarsBack >= 2
    requires core.neighborsCount == 3 && |bars| >= 6 && Shown(bars, Rising(|bars|))
    requires FirstBar(core, |bars|) <= 4 && t == RiseBar(FirstBar(core, |bars|)) && n == t + 1
    ensures PredictedAt(core, bars[..n], t) != PredictedAt(core, bars, t)
  {
    RisingRises(core, scale, bars);
    RisingPredicts(core, bars, if core.mode == LabelForward then 1 else -1, t);
    MutedPredictsNothing(core, bars[..n], t);
  }

  lemma RisingLate(core: Config, scale: real -> real, bars: seq<Bar>, t: nat, n: nat)
    requires Measures(core, scale) && Grows(scale) && !LooksBack(core.mode) && core.maxBarsBack >= 2
    requires core.neighborsCount == 3 && |bars| >= 6 && Shown(bars, Rising(|bars|))
    requires FirstBar(core, |bars|) >= 5 && n == 6 && t == RiseBar(FirstBar(core, n))
    ensures t < n && PredictedAt(core, bars[..n], t) != PredictedAt(core, bars, t)
  {
    ShownPrefix(bars, Rising(|bars|), n);
    assert Rising(|bars|)[..n] == Rising(n);
    RisingRises(core, scale, bars[..n]);
    RisingPredicts(core, bars[..n], if core.mode == LabelForward then 1 else -1, t);
    SkippedPredictsNothing(core, bars, t);
  }

  /** The first bar worked on shows a label that a frame of five bars cannot have, or, if it comes too late for that,
      a frame of six shows one that the whole frame has skipped. */
  lemma RisingRepaints(cfg: Settings, scale: real -> real, bars: seq<Bar>, n: nat)
    requires Measures(cfg.core, scale) && Grows(scale) && !LooksBack(cfg.core.mode) && cfg.core.maxBarsBack >= 2
    requires cfg.core.neighborsCount == 3 && |bars| >= 6 && Shown(bars, Rising(|bars|))
    requires n == RisePrefix(cfg.core, |bars|)
    ensures n <= |bars| && Rows(cfg, bars[..n]) != Rows(cfg, bars)[..n]
  {
    if FirstBar(cfg.core, |bars|) <= 4 {
      RisingEarly(cfg.core, scale, bars, n - 1, n);
      PredictionsDiffer(cfg, bars, n, n - 1);
    } else {
      var t := RiseBar(FirstBar(cfg.core, n));
      RisingLate(cfg.core, scale, bars, t, n);
      PredictionsDiffer(cfg, bars, n, t);
    }
  }

  // ---------------------------------------------------------------- the exact condition

  /** Computing the features of the first n bars and classifying them gives the first n rows of the whole frame. */
  ghost predicate SameRows(cfg: Settings, bars: Features.Bars, definitions: seq<Definition>, rest: seq<Bar>, n: nat)
    requires bars.Valid() && Computable(bars, definitions) && n <= |bars.close| == |rest|
  {
    ComputableOnStart(bars, definitions, n);
    Rows(cfg, Featured(FirstBars(bars, n), definitions, rest[..n])) == Rows(cfg, Featured(bars, definitions, rest))[..n]
  }

  /** No frame of this length repaints, whatever the prices, the feature definitions, what else the classifier reads
      of the bars, the number of neighbours and the other settings. */
  ghost predicate NeverRepaints(mode: Mode, maxBarsBack: int, length: nat, scale: real -> real) {
    forall cfg: Settings, bars: Features.Bars, definitions: seq<Definition>, rest: seq<Bar>, n: nat ::
      cfg.core.mode == mode && cfg.core.maxBarsBack == maxBarsBack && Measures(cfg.core, scale)
      && bars.Valid() && Computable(bars, definitions) && n <= |bars.close| == |rest| == length
      ==> SameRows(cfg, bars, definitions, rest, n)
  }

  /** Prices that repaint, whatever else the classifier reads of the bars: every close is positive and is the source,
      and its direction is the only feature. */
  ghost predicate Repaints(cfg: Settings, closes: seq<real>, n: nat) {
    && n <= |closes| && (forall i :: 0 <= i < |closes| ==> closes[i] > 0.0)
    && Computable(PriceBars(closes), [TURN])
    && forall rest :: Sources(rest, closes) ==> !SameRows(cfg, PriceBars(closes), [TURN], rest, n)
  }

  /** It is enough that the rows of every frame that shows the closes differ. */
  lemma ShownRepaint(cfg: Settings, closes: seq<real>, n: nat)
    requires n <= |closes| && forall i :: 0 <= i < |closes| ==> closes[i] > 0.0
    requires forall bars :: Shown(bars, closes) ==> Rows(cfg, bars[..n]) != Rows(cfg, bars)[..n]
    ensures Repaints(cfg, closes, n)
  {
    var blank := seq(|closes|, i requires 0 <= i < |closes| =>
      Bar(closes[i], [], true, true, true, true, true, None, None));
    FeaturedIsShown(closes, blank);
    forall rest | Sources(rest, closes) ensures !SameRows(cfg, PriceBars(closes), [TURN], rest, n) {
      FeaturedIsShown(closes, rest);
      FeaturedOnStart(PriceBars(closes), [TURN], rest, n);
    }
  }

  function WitnessSettings(mode: Mode, maxBarsBack: int, neighbors: int, scale: real -> real): (cfg: Settings)
    ensures cfg.core.mode == mode && cfg.core.maxBarsBack == maxBarsBack && cfg.core.neighborsCount == neighbors
    ensures Measures(cfg.core, scale)
  {
    Settings(Config(mode, neighbors, maxBarsBack, 0.0, (x, y) => SumDistance(scale, x, y)),
             1, 0, false, false, false, false, false, false, true, true)
  }

  lemma UnsafeByStep(mode: Mode, maxBarsBack: int, neighbors: int, length: nat, scale: real -> real)
    returns (cfg: Settings, closes: seq<real>, n: nat)
    requires LooksBack(mode) && Grows(scale) && neighbors >= 1 && !Muted(mode, maxBarsBack, length)
    requires length >= maxBarsBack + 2 + FirstLabelledBar(mode, maxBarsBack)
    ensures cfg == WitnessSettings(mode, maxBarsBack, neighbors, scale) && |closes| == length
        && Repaints(cfg, closes, n)
  {
    cfg := WitnessSettings(mode, maxBarsBack, neighbors, scale);
    var m, t := StepBar(mode, maxBarsBack), FirstLabelledBar(mode, maxBarsBack);
    var p := FirstStepComesIn(cfg.core);
    closes, n := Step(m, length), t + 1;
    forall bars | Shown(bars, closes) ensures Rows(cfg, bars[..n]) != Rows(cfg, bars)[..n] {
      StepRepaints(cfg, scale, bars, m, t, p, n);
    }
    ShownRepaint(cfg, closes, n);
  }

  lemma UnsafeByFall(mode: Mode, maxBarsBack: int, h: nat, length: nat, scale: real -> real)
    returns (cfg: Settings, closes: seq<real>, n: nat)
    requires Grows(scale) && TurnsAt(mode, maxBarsBack, h) && length >= maxBarsBack + 2 + FirstAccepted(mode)
    ensures cfg.core.mode == mode && cfg.core.maxBarsBack == maxBarsBack && Measures(cfg.core, scale)
    ensures |closes| == length && Repaints(cfg, closes, n)
  {
    cfg := WitnessSettings(mode, maxBarsBack, TurnCount(mode, maxBarsBack, h), scale);
    closes, n := Falling(h, length), h + 1;
    forall bars | Shown(bars, closes) ensures Rows(cfg, bars[..n]) != Rows(cfg, bars)[..n] {
      FallingRepaints(cfg, scale, bars, h, n);
    }
    ShownRepaint(cfg, closes, n);
  }

  lemma UnsafeByRebound(mode: Mode, length: nat, scale: real -> real) returns (cfg: Settings, closes: seq<real>, n: nat)
    requires Grows(scale) && IsRolling(mode) && 8 <= length <= 11
    ensures cfg.core.mode == mode && cfg.core.maxBarsBack == 5 && Measures(cfg.core, scale)
    ensures |closes| == length && Repaints(cfg, closes, n)
  {
    cfg := WitnessSettings(mode, 5, 4, scale);
    closes, n := Rebound(length), 6;
    forall bars | Shown(bars, closes) ensures Rows(cfg, bars[..n]) != Rows(cfg, bars)[..n] {
      ReboundRepaints(cfg, scale, bars, n);
    }
    ShownRepaint(cfg, closes, n);
  }

  lemma UnsafeByRise(mode: Mode, maxBarsBack: int, length: nat, scale: real -> real)
    returns (cfg: Settings, closes: seq<real>, n: nat)
    requires Grows(scale) && !LooksBack(mode) && maxBarsBack >= 2 && length >= 6
    ensures cfg.core.mode == mode && cfg.core.maxBarsBack == maxBarsBack && Measures(cfg.core, scale)
    ensures |closes| == length && Repaints(cfg, closes, n)
  {
    cfg := WitnessSettings(mode, maxBarsBack, 3, scale);
    closes, n := Rising(length), RisePrefix(cfg.core, length);
    forall bars | Shown(bars, closes) ensures Rows(cfg, bars[..n]) != Rows(cfg, bars)[..n] {
      RisingRepaints(cfg, scale, bars, n);
    }
    ShownRepaint(cfg, closes, n);
  }

  /** Every frame length that is not safe has prices that do repaint. */
  lemma UnsafeFramesRepaint(mode: Mode, maxBarsBack: int, length: nat, scale: real -> real)
    returns (cfg: Settings, closes: seq<real>, n: nat)
    requires Grows(scale) && !SafePriceLength(mode, maxBarsBack, length)
    ensures cfg.core.mode == mode && cfg.core.maxBarsBack == maxBarsBack && Measures(cfg.core, scale)
    ensures |closes| == length && Repaints(cfg, closes, n)
  {
    if !LooksBack(mode) {
      cfg, closes, n := UnsafeByRise(mode, maxBarsBack, length, scale);
    } else if FirstAccepted(mode) == 0 || (IsRolling(mode) && (maxBarsBack == 2 || (maxBarsBack == 5 && length > 11))) {
      cfg, closes, n := UnsafeByStep(mode, maxBarsBack, 1, length, scale);
    } else if IsRolling(mode) && maxBarsBack == 5 {
      cfg, closes, n := UnsafeByRebound(mode, length, scale);
    } else {
      var h := if IsRolling(mode) && maxBarsBack <= 4 then 4 else FirstLabelled(mode);
      cfg, closes, n := UnsafeByFall(mode, maxBarsBack, h, length, scale);
    }
  }

  /**
   * The frame lengths that never repaint are exactly the safe ones. With labels that look back: as many bars beyond
   * the history and its end as come before the first index that can be accepted, or any length at all when the
   * history is too short to reach a label (and up to seven bars with rolling windows of two). With labels that look
   * ahead: up to five bars, or a history of one.
   */
  lemma NeverRepaintsExactly(mode: Mode, maxBarsBack: int, length: nat, scale: real -> real)
    requires Grows(scale)
    ensures NeverRepaints(mode, maxBarsBack, length, scale) <==> SafePriceLength(mode, maxBarsBack, length)
  {
    if SafePriceLength(mode, maxBarsBack, length) {
      forall cfg: Settings, bars: Features.Bars, definitions: seq<Definition>, rest: seq<Bar>, n: nat |
        cfg.core.mode == mode && cfg.core.maxBarsBack == maxBarsBack && Measures(cfg.core, scale)
        && bars.Valid() && Computable(bars, definitions) && n <= |bars.close| == |rest| == length
        ensures SameRows(cfg, bars, definitions, rest, n)
      {
        FeaturedOnStart(bars, definitions, rest, n);
        SafePrices(cfg, scale, bars, definitions, rest, n);
      }
    } else {
      var cfg, closes, n := UnsafeFramesRepaint(mode, maxBarsBack, length, scale);
      var rest := SomeRest(cfg, closes, n);
      assert !SameRows(cfg, PriceBars(closes), [TURN], rest, n);
    }
  }

  lemma SomeRest(cfg: Settings, closes: seq<real>, n: nat) returns (rest: seq<Bar>)
    requires Repaints(cfg, closes, n)
    ensures Sources(rest, closes) && !SameRows(cfg, PriceBars(closes), [TURN], rest, n)
  {
    rest := seq(|closes|, i requires 0 <= i < |closes| =>
      Bar(closes[i], [], true, true, true, true, true, None, None));
  }

  /** The same for a given number of neighbours. */
  ghost predicate FewNeverRepaint(mode: Mode, maxBarsBack: int, neighbors: int, length: nat, scale: real -> real) {
    forall cfg: Settings, bars: Features.Bars, definitions: seq<Definition>, rest: seq<Bar>, n: nat ::
      cfg.core.mode == mode && cfg.core.maxBarsBack == maxBarsBack && cfg.core.neighborsCount == neighbors
      && Measures(cfg.core, scale)
      && bars.Valid() && Computable(bars, definitions) && n <= |bars.close| == |rest| == length
      ==> SameRows(cfg, bars, definitions, rest, n)
  }

  /** With one or two neighbours the store cannot steer the scan, and the lengths that never repaint are exactly those
      up to which no skipped bar can accept a label. */
  lemma FewNeverRepaintExactly(mode: Mode, maxBarsBack: int, neighbors: int, length: nat, scale: real -> real)
    requires LooksBack(mode) && Grows(scale) && 1 <= neighbors <= 2
    ensures FewNeverRepaint(mode, maxBarsBack, neighbors, length, scale)
            <==> length <= maxBarsBack + 1 + FirstLabelledBar(mode, maxBarsBack) || Muted(mode, maxBarsBack, length)
  {
    if length <= maxBarsBack + 1 + FirstLabelledBar(mode, maxBarsBack) || Muted(mode, maxBarsBack, length) {
      forall cfg: Settings, bars: Features.Bars, definitions: seq<Definition>, rest: seq<Bar>, n: nat |
        cfg.core.mode == mode && cfg.core.maxBarsBack == maxBarsBack && cfg.core.neighborsCount == neighbors
        && Measures(cfg.core, scale)
        && bars.Valid() && Computable(bars, definitions) && n <= |bars.close| == |rest| == length
        ensures SameRows(cfg, bars, definitions, rest, n)
      {
        PriceRowsNeverRepaint(cfg, bars, definitions, rest, n);
      }
    } else {
      var cfg, closes, n := UnsafeByStep(mode, maxBarsBack, neighbors, length, scale);
      var rest := SomeRest(cfg, closes, n);
      assert !SameRows(cfg, PriceBars(closes), [TURN], rest, n);
    }
  }
}
