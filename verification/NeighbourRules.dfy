/** Which neighbours a bar takes and what they vote, told from the stream of all neighbours taken before, without the
    bounded store. */
module NeighbourRules {
  import opened Options
  import opened Neighbours

  // ---------------------------------------------------------------- what a bar looks at

  /** How many bars of history the bar looks at: no more than the setting, itself included. */
  function Considered(cfg: Config, t: nat): nat {
    if cfg.maxBarsBack <= 0 then 0 else if t + 1 <= cfg.maxBarsBack then t + 1 else cfg.maxBarsBack
  }

  /** The k-th of them: counted back from the bar itself in the rolling modes, and from bar zero in the others. */
  function Looked(cfg: Config, t: nat, k: nat): (h: nat)
    requires k < Considered(cfg, t)
    ensures h <= t
  {
    if cfg.mode == RollingResearch || cfg.mode == AnnRolling then t + 1 - Considered(cfg, t) + k else k
  }

  /** The places the mode lets in: one in four, or three in four. The rolling modes count from the window's start. */
  predicate LetIn(mode: Mode, place: nat) {
    match mode
    case MarkerTuned => place % 4 == 0
    case Modulo0 => place % 4 == 0
    case Modulo1 => place % 4 == 1
    case Modulo2 => place % 4 == 2
    case Modulo3 => place % 4 == 3
    case Static => place % 4 != 0
    case RollingResearch => place % 4 != 0
    case AnnRolling => place % 4 != 0
    case LabelInverted => place % 4 != 0
    case LabelForward => place % 4 != 0
    case LabelForwardInverted => place % 4 != 0
    case BarsHeldStart0 => place % 4 != 0
  }

  /** One if the source is below the other value, minus one if above. */
  function Toward(source: real, other: real): int {
    if other > source then 1 else if other < source then -1 else 0
  }

  /** What a bar votes: for the side the source came from over four bars, against it in the inverted mode, and for the
      side it goes to, or against it, in the forward modes. Nothing where the fourth bar is missing. */
  function Vote(bars: seq<Bar>, h: nat, mode: Mode): int
    requires h < |bars|
  {
    if mode == LabelForward || mode == LabelForwardInverted then
      if h + 4 >= |bars| then 0
      else if mode == LabelForward then Toward(bars[h].source, bars[h + 4].source)
      else Toward(bars[h + 4].source, bars[h].source)
    else if h < 4 then 0
    else if mode == LabelInverted then Toward(bars[h - 4].source, bars[h].source)
    else Toward(bars[h].source, bars[h - 4].source)
  }

  // ---------------------------------------------------------------- the distance to beat

  /** The place, counted in the last neighbours and one more, that three quarters of their number round to, half up. */
  ghost predicate IsPivot(p: nat, neighbors: nat) {
    4 * p - 2 <= 3 * neighbors < 4 * p + 2
  }

  /** The distance a bar must reach after taking m neighbours: nothing at first; then that of the last one taken,
      or, once more than the allowed number were ever taken, the one at the pivot of the last of those. */
  ghost predicate ToBeat(distance: real, neighbors: nat, stream: seq<Neighbour>, m: nat)
    requires m <= |stream|
  {
    if m == 0 then distance == -1.0
    else if |stream| <= neighbors then distance == stream[|stream| - 1].distance
    else
      exists p: nat ::
        p <= neighbors && IsPivot(p, neighbors) && distance == stream[|stream| - 1 - neighbors + p].distance
  }

  /** The bar takes a neighbour of history: at a finite distance that is not too small, at a place let in. */
  ghost predicate TakesFrom(cfg: Config, bars: seq<Bar>, t: nat, k: nat, stream: seq<Neighbour>, m: nat)
    requires t < |bars| && k < Considered(cfg, t) && m <= |stream|
  {
    var h := Looked(cfg, t, k);
    var d := cfg.distance(bars[t].features, bars[h].features);
    && d.Some? && (forall least: real :: ToBeat(least, Limit(cfg), stream, m) ==> d.value >= least)
    && LetIn(cfg.mode, if IsRolling(cfg.mode) then k else h)
  }

  /** What a bar takes of the first n bars it looks at, after everything taken on earlier bars. */
  ghost function Taken(cfg: Config, bars: seq<Bar>, t: nat, stream: seq<Neighbour>, n: nat): seq<Neighbour>
    requires t < |bars| && n <= Considered(cfg, t)
  {
    if n == 0 then []
    else
      var before := Taken(cfg, bars, t, stream, n - 1);
      var h := Looked(cfg, t, n - 1);
      if TakesFrom(cfg, bars, t, n - 1, stream + before, |before|)
      then before + [Neighbour(h, Vote(bars, h, cfg.mode), cfg.distance(bars[t].features, bars[h].features).value)]
      else before
  }

  // ---------------------------------------------------------------- the store does the same

  lemma LookedIsWindow(cfg: Config, t: nat)
    ensures WindowLength(cfg, t) == Considered(cfg, t)
    ensures forall k :: 0 <= k < Considered(cfg, t) ==> Looked(cfg, t, k) == WindowStart(cfg, t) + k
  {
  }

  lemma VoteIsLabel(bars: seq<Bar>, h: nat, mode: Mode)
    requires h < |bars|
    ensures Vote(bars, h, mode) == Label(bars, h, mode)
  {
  }

  lemma PivotIsNearest(cfg: Config, p: nat)
    ensures IsPivot(p, Limit(cfg)) <==> p == Pivot(cfg)
  {
  }

  /** The scan's distance to beat is the one the stream gives. */
  ghost predicate ScanFits(cfg: Config, s: Scan, stream: seq<Neighbour>) {
    && IsWindow(cfg, s.store, stream + s.accepted)
    && forall d: real :: ToBeat(d, Limit(cfg), stream + s.accepted, |s.accepted|) <==> d == s.lastDistance
  }

  lemma GrownList(stream: seq<Neighbour>, n: Neighbour, k: nat, p: nat)
    requires |stream| >= k && p <= k
    ensures (Distances(Tail(stream, k)) + [n.distance])[p] == (stream + [n])[|stream| - k + p].distance
  {
  }

  lemma ToBeatAfter(cfg: Config, stream: seq<Neighbour>, n: Neighbour, m: nat, d: real)
    requires 1 <= m <= |stream| + 1
    ensures ToBeat(d, Limit(cfg), stream + [n], m)
            <==> d == if |stream| + 1 <= Limit(cfg) then n.distance
                      else (stream + [n])[|stream| - Limit(cfg) + Pivot(cfg)].distance
  {
    forall p: nat ensures IsPivot(p, Limit(cfg)) <==> p == Pivot(cfg) {
      PivotIsNearest(cfg, p);
    }
    var all := stream + [n];
    assert all[|all| - 1] == n;
    if |all| > Limit(cfg) {
      assert IsPivot(Pivot(cfg), Limit(cfg));
    }
  }

  lemma TakeInBeats(cfg: Config, s: Scan, stream: seq<Neighbour>, n: Neighbour)
    requires IsWindow(cfg, s.store, stream + s.accepted)
    ensures var all := (stream + s.accepted) + [n];
            TakeIn(cfg, s, n).lastDistance
            == if |all| <= Limit(cfg) then n.distance else all[|all| - 1 - Limit(cfg) + Pivot(cfg)].distance
  {
    if |stream + s.accepted| >= Limit(cfg) {
      GrownList(stream + s.accepted, n, Limit(cfg), Pivot(cfg));
    }
  }

  lemma TakeInFits(cfg: Config, s: Scan, stream: seq<Neighbour>, n: Neighbour)
    requires ScanFits(cfg, s, stream)
    ensures ScanFits(cfg, TakeIn(cfg, s, n), stream)
  {
    var next := TakeIn(cfg, s, n);
    TakeInSlides(cfg, s, n, stream + s.accepted);
    TakeInBeats(cfg, s, stream, n);
    assert stream + next.accepted == (stream + s.accepted) + [n];
    forall d: real ensures ToBeat(d, Limit(cfg), stream + next.accepted, |next.accepted|) <==> d == next.lastDistance {
      ToBeatAfter(cfg, stream + s.accepted, n, |next.accepted|, d);
    }
  }

  lemma CandidateIsTaken(cfg: Config, bars: seq<Bar>, t: nat, k: nat, s: Scan, stream: seq<Neighbour>)
    requires t < |bars| && k < Considered(cfg, t) && ScanFits(cfg, s, stream) && WindowStart(cfg, t) + k <= t
    ensures var c, h := Candidate(cfg, bars, t, k, s.lastDistance), Looked(cfg, t, k);
            && (c.Some? <==> TakesFrom(cfg, bars, t, k, stream + s.accepted, |s.accepted|))
            && (c.Some? ==> c.value == Neighbour(h, Vote(bars, h, cfg.mode),
                                                 cfg.distance(bars[t].features, bars[h].features).value))
  {
    LookedIsWindow(cfg, t);
    VoteIsLabel(bars, Looked(cfg, t, k), cfg.mode);
    assert ToBeat(s.lastDistance, Limit(cfg), stream + s.accepted, |s.accepted|);
  }

  lemma {:induction false} ScanTakes(cfg: Config, bars: seq<Bar>, t: nat, store: Store, stream: seq<Neighbour>, n: nat)
    requires t < |bars| && n <= WindowLength(cfg, t) == Considered(cfg, t) && IsWindow(cfg, store, stream)
    ensures var s := ScanTo(cfg, bars, t, store, n);
            s.accepted == Taken(cfg, bars, t, stream, n) && ScanFits(cfg, s, stream)
  {
    if n == 0 {
      assert stream + [] == stream;
    } else {
      ScanTakes(cfg, bars, t, store, stream, n - 1);
      ScanTakesNext(cfg, bars, t, store, stream, n - 1);
    }
  }

  lemma ScanTakesNext(cfg: Config, bars: seq<Bar>, t: nat, store: Store, stream: seq<Neighbour>, k: nat)
    requires t < |bars| && k < WindowLength(cfg, t) == Considered(cfg, t) && IsWindow(cfg, store, stream)
    requires var s := ScanTo(cfg, bars, t, store, k);
             s.accepted == Taken(cfg, bars, t, stream, k) && ScanFits(cfg, s, stream)
    ensures var s := ScanTo(cfg, bars, t, store, k + 1);
            s.accepted == Taken(cfg, bars, t, stream, k + 1) && ScanFits(cfg, s, stream)
  {
    var s := ScanTo(cfg, bars, t, store, k);
    LookedIsWindow(cfg, t);
    CandidateIsTaken(cfg, bars, t, k, s, stream);
    var c := Candidate(cfg, bars, t, k, s.lastDistance);
    if c.Some? {
      TakeInFits(cfg, s, stream, c.value);
    }
  }

  function Votes(items: seq<Neighbour>, side: int): nat {
    if items == [] then 0 else Votes(items[..|items| - 1], side) + if items[|items| - 1].y == side then 1 else 0
  }

  lemma {:induction false} SumIsVotes(items: seq<Neighbour>)
    requires forall i :: 0 <= i < |items| ==> -1 <= items[i].y <= 1
    ensures Sum(Labels(items)) == Votes(items, 1) - Votes(items, -1)
  {
    if items != [] {
      SumIsVotes(items[..|items| - 1]);
      assert Labels(items)[..|items| - 1] == Labels(items[..|items| - 1]);
    }
  }

  /** The last neighbours, as many as are allowed. */
  function Latest(cfg: Config, stream: seq<Neighbour>): seq<Neighbour> {
    if cfg.neighborsCount <= 0 then []
    else if |stream| <= cfg.neighborsCount then stream
    else stream[|stream| - cfg.neighborsCount..]
  }

  lemma LatestVotes(cfg: Config, bars: seq<Bar>, store: Store, stream: seq<Neighbour>, n: nat)
    requires IsWindow(cfg, store, stream) && FromPast(bars, cfg.mode, stream, n)
    ensures Sum(store.labels) == Votes(Latest(cfg, stream), 1) - Votes(Latest(cfg, stream), -1)
  {
    var last := Latest(cfg, stream);
    assert last == Tail(stream, Limit(cfg));
    forall i | 0 <= i < |last| ensures -1 <= last[i].y <= 1 {
      assert last[i] == stream[|stream| - |last| + i];
    }
    SumIsVotes(last);
  }

  lemma StreamGrows(accepted: seq<seq<Neighbour>>, taken: seq<Neighbour>)
    ensures Stream(accepted + [taken]) == Stream(accepted) + taken
  {
    assert (accepted + [taken])[..|accepted|] == accepted;
  }

  /** Every bar takes exactly the neighbours that the stream before it lets it take, and predicts their side: the
      votes for rising less those for falling among the last ones taken. A bar before the first one worked on takes
      none and predicts nothing. */
  lemma BarTakesAndVotes(cfg: Config, bars: seq<Bar>, first: nat, t: nat)
    requires t < |bars|
    ensures var s := Loop(cfg, bars, first, |bars|);
            var before, now := Stream(s.accepted[..t]), Stream(s.accepted[..t + 1]);
            && s.accepted[t] == (if t < first then [] else Taken(cfg, bars, t, before, Considered(cfg, t)))
            && now == before + s.accepted[t]
            && s.predictions[t] == Votes(Latest(cfg, now), 1) - Votes(Latest(cfg, now), -1)
  {
    var a, b := Loop(cfg, bars, first, t), Loop(cfg, bars, first, t + 1);
    LoopAppends(cfg, bars, first, t);
    LoopIsIncremental(cfg, bars, first, t, |bars|);
    LoopIsIncremental(cfg, bars, first, t + 1, |bars|);
    StoreIsSlidingWindow(cfg, bars, first, t);
    StoreIsSlidingWindow(cfg, bars, first, t + 1);
    LookedIsWindow(cfg, t);
    if t >= first {
      ScanTakes(cfg, bars, t, a.store, Stream(a.accepted), Considered(cfg, t));
    }
    StreamGrows(a.accepted, b.accepted[t]);
    LatestVotes(cfg, bars, b.store, Stream(b.accepted), t + 1);
    BarOfLoop(cfg, bars, first, t);
  }

  /** In a whole run the bars worked on are the last ones: as many as the history holds, and one more. */
  lemma RunTakesAndVotes(cfg: Config, bars: seq<Bar>, t: nat)
    requires t < |bars|
    ensures var s := Loop(cfg, bars, FirstBar(cfg, |bars|), |bars|);
            var before, now := Stream(s.accepted[..t]), Stream(s.accepted[..t + 1]);
            && s.accepted[t] == (if t + cfg.maxBarsBack + 1 < |bars| then []
                                 else Taken(cfg, bars, t, before, Considered(cfg, t)))
            && s.predictions[t] == Votes(Latest(cfg, now), 1) - Votes(Latest(cfg, now), -1)
  {
    BarTakesAndVotes(cfg, bars, FirstBar(cfg, |bars|), t);
  }

  lemma BarOfLoop(cfg: Config, bars: seq<Bar>, first: nat, t: nat)
    requires t < |bars|
    ensures var s, b := Loop(cfg, bars, first, |bars|), Loop(cfg, bars, first, t + 1);
            && s.accepted[..t] == Loop(cfg, bars, first, t).accepted && s.accepted[..t + 1] == b.accepted
            && b.accepted == s.accepted[..t] + [b.accepted[t]] && s.accepted[t] == b.accepted[t]
            && s.predictions[t] == b.predictions[t] == b.prediction
  {
    LoopAppends(cfg, bars, first, t);
    LoopIsIncremental(cfg, bars, first, t, |bars|);
    LoopIsIncremental(cfg, bars, first, t + 1, |bars|);
    var s, b := Loop(cfg, bars, first, |bars|), Loop(cfg, bars, first, t + 1);
    assert s.accepted[..t + 1][t] == s.accepted[t] && s.predictions[..t + 1][t] == s.predictions[t];
  }
}
