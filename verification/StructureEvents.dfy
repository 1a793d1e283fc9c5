/** Which events market structure reports, told from the candles alone: without pivot lists, trend counters or the
    cap on remembered pivots. */
module StructureEvents {
  import opened Sides
  import opened MarketStructure

  /** The price at which a bar is extreme on a side. */
  function Extreme(side: Side, bar: Bar): real {
    match side
    case Long => bar.high
    case Short => bar.low
  }

  /** No bar within the lookback on either side goes further. */
  predicate IsExtreme(side: Side, bars: seq<Bar>, p: int, lookback: nat) {
    && lookback <= p && p + lookback < |bars|
    && forall j :: p - lookback <= j <= p + lookback ==>
         if side == Long then bars[j].high <= bars[p].high else bars[j].low >= bars[p].low
  }

  /** The pivots of a side confirmed by bars after `after` and before n, the newest first. */
  function Waiting(side: Side, bars: seq<Bar>, lookback: nat, after: int, n: nat): seq<Pivot>
    requires n <= |bars|
  {
    if n == 0 || n - 1 <= after then []
    else
      var p := n - 1 - lookback;
      (if IsExtreme(side, bars, p, lookback) then [Pivot(p, Extreme(side, bars[p]))] else [])
      + Waiting(side, bars, lookback, after, n - 1)
  }

  /** The bar of the last event of a side, or none. */
  function LastOf(events: seq<Event>, side: Side): int {
    if events == [] then -1
    else if events[|events| - 1].side == side then events[|events| - 1].index
    else LastOf(events[..|events| - 1], side)
  }

  function Other(side: Side): Side {
    match side
    case Long => Short
    case Short => Long
  }

  /** A break: the close passes the newest waiting pivot of the side, with at least two waiting on the other. */
  predicate Breaks(side: Side, close: real, mine: seq<Pivot>, others: seq<Pivot>) {
    && mine != [] && |others| >= 2
    && if side == Long then close > mine[0].price else close < mine[0].price
  }

  /** A break with the last event, or the first of all, is a BOS. One against it is a change of character, and a
      CHoCH+ when the two newest pivots of the other side already moved with it. */
  function KindOf(side: Side, events: seq<Event>, others: seq<Pivot>): Kind
    requires |others| >= 2
  {
    if events == [] || events[|events| - 1].side == side then BOS
    else if (if side == Long then others[0].price > others[1].price else others[0].price < others[1].price)
    then CHoCHPlus
    else CHoCH
  }

  function EventOf(side: Side, bars: seq<Bar>, i: nat, scope: Scope, events: seq<Event>, mine: seq<Pivot>,
      others: seq<Pivot>): Event
    requires i < |bars| && mine != [] && |others| >= 2
  {
    Event(i, bars[i].timestamp, KindOf(side, events, others), scope, side, mine[0].index, mine[0].price, bars[i].close)
  }

  /** The events up to bar n: on each bar a break upward, or else one downward, of pivots confirmed since the last
      break of the same side. */
  function Reported(bars: seq<Bar>, lookback: nat, scope: Scope, n: nat): seq<Event>
    requires n <= |bars|
  {
    if n == 0 then []
    else
      var before := Reported(bars, lookback, scope, n - 1);
      var highs := Waiting(Long, bars, lookback, LastOf(before, Long), n);
      var lows := Waiting(Short, bars, lookback, LastOf(before, Short), n);
      var close := bars[n - 1].close;
      if Breaks(Long, close, highs, lows) then before + [EventOf(Long, bars, n - 1, scope, before, highs, lows)]
      else if Breaks(Short, close, lows, highs) then before + [EventOf(Short, bars, n - 1, scope, before, lows, highs)]
      else before
  }

  // ---------------------------------------------------------------- the engine reports them

  /** The remembered pivots are the newest waiting ones, at most ten. */
  ghost predicate Remembers(pivots: seq<Pivot>, side: Side, bars: seq<Bar>, lookback: nat, events: seq<Event>, n: nat)
    requires n <= |bars|
  {
    pivots == Front(Waiting(side, bars, lookback, LastOf(events, side), n), 10)
  }

  ghost predicate Matches(s: Progress, bars: seq<Bar>, lookback: nat, n: nat)
    requires n <= |bars|
  {
    && Remembers(s.pivots.highs, Long, bars, lookback, s.events, n)
    && Remembers(s.pivots.lows, Short, bars, lookback, s.events, n)
    && TrendFollows(s.pivots.trend, s.events)
    && LastOf(s.events, Long) < n && LastOf(s.events, Short) < n
  }

  lemma FrontOfFront(x: Pivot, items: seq<Pivot>)
    ensures Front([x] + Front(items, 10), 10) == Front([x] + items, 10)
  {
  }

  lemma WaitingGrows(side: Side, bars: seq<Bar>, lookback: nat, after: int, i: nat)
    requires i < |bars| && after < i
    ensures Waiting(side, bars, lookback, after, i + 1)
            == (if IsExtreme(side, bars, i - lookback, lookback)
                then [Pivot(i - lookback, Extreme(side, bars[i - lookback]))] else [])
               + Waiting(side, bars, lookback, after, i)
  {
  }

  /** Collecting on bar i confirms the pivot a lookback before it. */
  lemma CollectRemembers(bars: seq<Bar>, lookback: nat, p: Pivots, events: seq<Event>, i: nat)
    requires i < |bars| && LastOf(events, Long) < i && LastOf(events, Short) < i
    requires Remembers(p.highs, Long, bars, lookback, events, i) && Remembers(p.lows, Short, bars, lookback, events, i)
    ensures var q := Collect(bars, i, lookback, p);
            && Remembers(q.highs, Long, bars, lookback, events, i + 1)
            && Remembers(q.lows, Short, bars, lookback, events, i + 1)
            && q.trend == p.trend
  {
    WaitingGrows(Long, bars, lookback, LastOf(events, Long), i);
    WaitingGrows(Short, bars, lookback, LastOf(events, Short), i);
    if i >= 2 * lookback {
      var at := i - lookback;
      assert IsExtreme(Long, bars, at, lookback) == IsHigh(bars, at, lookback);
      assert IsExtreme(Short, bars, at, lookback) == IsLow(bars, at, lookback);
      FrontOfFront(Pivot(at, bars[at].high), Waiting(Long, bars, lookback, LastOf(events, Long), i));
      FrontOfFront(Pivot(at, bars[at].low), Waiting(Short, bars, lookback, LastOf(events, Short), i));
    }
  }

  lemma LastOfAppend(events: seq<Event>, e: Event, side: Side)
    ensures LastOf(events + [e], side) == if e.side == side then e.index else LastOf(events, side)
  {
    assert (events + [e])[..|events|] == events;
  }

  lemma NothingWaits(side: Side, bars: seq<Bar>, lookback: nat, i: nat)
    requires i < |bars|
    ensures Waiting(side, bars, lookback, i, i + 1) == []
  {
  }

  /** The first two of the waiting pivots are all that a break looks at: the cap never matters. */
  lemma FirstTwo(waiting: seq<Pivot>)
    ensures var kept := Front(waiting, 10);
            && (kept == [] <==> waiting == []) && (|kept| > 1 <==> |waiting| >= 2)
            && (waiting != [] ==> kept[0] == waiting[0]) && (|waiting| >= 2 ==> kept[1] == waiting[1])
  {
  }

  lemma UpReports(bars: seq<Bar>, i: nat, scope: Scope, s: Progress, highs: seq<Pivot>, lows: seq<Pivot>)
    requires i < |bars| && s.pivots.highs == Front(highs, 10) && s.pivots.lows == Front(lows, 10)
    requires TrendFollows(s.pivots.trend, s.events)
    ensures BreakUp(bars, i, s, scope)
            == if Breaks(Long, bars[i].close, highs, lows)
               then Progress(Pivots([], s.pivots.lows, 1),
                             s.events + [EventOf(Long, bars, i, scope, s.events, highs, lows)])
               else s
  {
    FirstTwo(highs);
    FirstTwo(lows);
  }

  lemma DownReports(bars: seq<Bar>, i: nat, scope: Scope, s: Progress, highs: seq<Pivot>, lows: seq<Pivot>)
    requires i < |bars| && s.pivots.highs == Front(highs, 10) && s.pivots.lows == Front(lows, 10)
    requires TrendFollows(s.pivots.trend, s.events)
    ensures BreakDown(bars, i, s, scope)
            == if Breaks(Short, bars[i].close, lows, highs)
               then Progress(Pivots(s.pivots.highs, [], -1),
                             s.events + [EventOf(Short, bars, i, scope, s.events, lows, highs)])
               else s
  {
    FirstTwo(highs);
    FirstTwo(lows);
  }

  /** After a break its side waits for new pivots, and the other side's still wait. */
  lemma BreakMatches(bars: seq<Bar>, lookback: nat, s: Progress, i: nat, e: Event, p: Pivots)
    requires i < |bars| && e.index == i && LastOf(s.events, Long) < i && LastOf(s.events, Short) < i
    requires Remembers(s.pivots.highs, Long, bars, lookback, s.events, i + 1)
    requires Remembers(s.pivots.lows, Short, bars, lookback, s.events, i + 1)
    requires p == if e.side == Long then Pivots([], s.pivots.lows, 1) else Pivots(s.pivots.highs, [], -1)
    ensures Matches(Progress(p, s.events + [e]), bars, lookback, i + 1)
  {
    LastOfAppend(s.events, e, Long);
    LastOfAppend(s.events, e, Short);
    NothingWaits(e.side, bars, lookback, i);
  }

  lemma CheckReports(bars: seq<Bar>, lookback: nat, scope: Scope, s: Progress, i: nat)
    requires i < |bars| && TrendFollows(s.pivots.trend, s.events)
    requires Remembers(s.pivots.highs, Long, bars, lookback, s.events, i + 1)
    requires Remembers(s.pivots.lows, Short, bars, lookback, s.events, i + 1)
    requires LastOf(s.events, Long) < i && LastOf(s.events, Short) < i
    ensures var highs := Waiting(Long, bars, lookback, LastOf(s.events, Long), i + 1);
            var lows := Waiting(Short, bars, lookback, LastOf(s.events, Short), i + 1);
            var t := Check(bars, i, s, scope);
            && t.events == (if Breaks(Long, bars[i].close, highs, lows)
                            then s.events + [EventOf(Long, bars, i, scope, s.events, highs, lows)]
                            else if Breaks(Short, bars[i].close, lows, highs)
                            then s.events + [EventOf(Short, bars, i, scope, s.events, lows, highs)]
                            else s.events)
            && Matches(t, bars, lookback, i + 1)
  {
    var highs := Waiting(Long, bars, lookback, LastOf(s.events, Long), i + 1);
    var lows := Waiting(Short, bars, lookback, LastOf(s.events, Short), i + 1);
    UpReports(bars, i, scope, s, highs, lows);
    OneBreakAtMost(bars, i, s, scope);
    if Breaks(Long, bars[i].close, highs, lows) {
      var t := BreakUp(bars, i, s, scope);
      BreakMatches(bars, lookback, s, i, t.events[|s.events|], t.pivots);
    } else {
      DownReports(bars, i, scope, s, highs, lows);
      if Breaks(Short, bars[i].close, lows, highs) {
        var t := BreakDown(bars, i, s, scope);
        BreakMatches(bars, lookback, s, i, t.events[|s.events|], t.pivots);
      }
    }
  }

  lemma ScopeMatches(bars: seq<Bar>, lookback: nat, scope: Scope, n: nat)
    requires n <= |bars|
    ensures var s := ScopeRun(bars, lookback, scope, n);
            s.events == Reported(bars, lookback, scope, n) && Matches(s, bars, lookback, n)
  {
    for i := 0 to n
      invariant var s := ScopeRun(bars, lookback, scope, i);
                s.events == Reported(bars, lookback, scope, i) && Matches(s, bars, lookback, i)
    {
      BarMatches(bars, lookback, scope, i);
    }
  }

  lemma BarMatches(bars: seq<Bar>, lookback: nat, scope: Scope, i: nat)
    requires i < |bars|
    requires var s := ScopeRun(bars, lookback, scope, i);
             s.events == Reported(bars, lookback, scope, i) && Matches(s, bars, lookback, i)
    ensures var s := ScopeRun(bars, lookback, scope, i + 1);
            s.events == Reported(bars, lookback, scope, i + 1) && Matches(s, bars, lookback, i + 1)
  {
    var s := ScopeRun(bars, lookback, scope, i);
    CollectRemembers(bars, lookback, s.pivots, s.events, i);
    CheckReports(bars, lookback, scope, Progress(Collect(bars, i, lookback, s.pivots), s.events), i);
  }

  /** The report, read scope by scope, is exactly the breaks of the candles' own extrema: the internal scope always, the
      swing scope when it is asked for. How many pivots the engine remembers makes no difference. */
  lemma ReportIsBreaks(bars: seq<Bar>, cfg: Config)
    ensures var events := Run(bars, cfg, |bars|).events;
            && OfScope(events, Internal) == Reported(bars, cfg.internalLookback, Internal, |bars|)
            && OfScope(events, Swing)
               == (if cfg.useSwing then Reported(bars, cfg.swingLookback, Swing, |bars|) else [])
  {
    ScopesAreIndependent(bars, cfg, |bars|);
    ScopeMatches(bars, cfg.internalLookback, Internal, |bars|);
    ScopeMatches(bars, cfg.swingLookback, Swing, |bars|);
  }

  /** Earlier bars first, and on one bar the internal scope first. */
  predicate ComesBefore(a: Event, b: Event) {
    a.index < b.index || (a.index == b.index && a.scope == Internal && b.scope == Swing)
  }

  ghost predicate Interleaved(events: seq<Event>, n: nat) {
    && (forall k :: 0 <= k < |events| ==> events[k].index < n)
    && InOrder(events)
  }

  ghost predicate InOrder(events: seq<Event>) {
    forall j, k :: 0 <= j < k < |events| ==> ComesBefore(events[j], events[k])
  }

  lemma AppendKeepsOrder(events: seq<Event>, found: seq<Event>)
    requires InOrder(events) && |found| <= 1
    requires found != [] ==> forall k :: 0 <= k < |events| ==> ComesBefore(events[k], found[0])
    ensures InOrder(events + found)
  {
  }

  lemma NextInterleaves(bars: seq<Bar>, cfg: Config, i: nat, b: Both)
    requires i < |bars| && Interleaved(b.events, i)
    ensures Interleaved(Next(bars, cfg, i, b).events, i + 1)
  {
    var found, more := NextAppends(bars, cfg, i, b, [], []);
    AppendKeepsOrder(b.events, found);
    AppendKeepsOrder(b.events + found, more);
  }

  /** The report is in the order of the bars, and within a bar the internal event comes first. */
  lemma ReportIsInterleaved(bars: seq<Bar>, cfg: Config, n: nat)
    requires n <= |bars|
    ensures Interleaved(Run(bars, cfg, n).events, n)
  {
    for i := 0 to n
      invariant Interleaved(Run(bars, cfg, i).events, i)
    {
      NextInterleaves(bars, cfg, i, Run(bars, cfg, i));
    }
  }
}
