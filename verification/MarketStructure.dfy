/** Market structure: pivots confirmed from both sides, and the breaks of them, for each scope. */
module MarketStructure {
  import opened Sides

  datatype Scope = Internal | Swing
  datatype Kind = BOS | CHoCH | CHoCHPlus

  datatype Bar = Bar(timestamp: int, high: real, low: real, close: real)

  datatype Pivot = Pivot(index: int, price: real)

  datatype Event = Event(index: int, timestamp: int, kind: Kind, scope: Scope, side: Side,
                         pivotIndex: int, pivotPrice: real, breakoutPrice: real)

  /** `_PivotState`: the latest pivots first, at most ten a side, and the running trend. */
  datatype Pivots = Pivots(highs: seq<Pivot>, lows: seq<Pivot>, trend: int)

  const NONE := Pivots([], [], 0)

  /** No bar within the lookback on either side is higher. */
  predicate IsHigh(bars: seq<Bar>, p: int, lookback: nat)
    requires lookback <= p && p + lookback < |bars|
  {
    forall j :: p - lookback <= j <= p + lookback ==> bars[p].high >= bars[j].high
  }

  predicate IsLow(bars: seq<Bar>, p: int, lookback: nat)
    requires lookback <= p && p + lookback < |bars|
  {
    forall j :: p - lookback <= j <= p + lookback ==> bars[p].low <= bars[j].low
  }

  function Front<T>(items: seq<T>, k: nat): seq<T> {
    if |items| <= k then items else items[..k]
  }

  /** `_collect_pivot`. */
  function Collect(bars: seq<Bar>, i: nat, lookback: nat, p: Pivots): Pivots
    requires i < |bars|
  {
    if i < 2 * lookback then p
    else
      var at := i - lookback;
      p.(highs := if IsHigh(bars, at, lookback) then Front([Pivot(at, bars[at].high)] + p.highs, 10) else p.highs,
         lows := if IsLow(bars, at, lookback) then Front([Pivot(at, bars[at].low)] + p.lows, 10) else p.lows)
  }

  /** A scope's pivots and the events it has reported. */
  datatype Progress = Progress(pivots: Pivots, events: seq<Event>)

  /** The upward break, if any: the latest high is passed by the close. */
  function BreakUp(bars: seq<Bar>, i: nat, s: Progress, scope: Scope): Progress
    requires i < |bars|
  {
    var p := s.pivots;
    if p.highs != [] && |p.lows| > 1 && bars[i].close > p.highs[0].price then
      var kind := if p.trend < 0 then if p.lows[0].price > p.lows[1].price then CHoCHPlus else CHoCH else BOS;
      Progress(p.(trend := 1, highs := []),
               s.events + [Event(i, bars[i].timestamp, kind, scope, Long, p.highs[0].index, p.highs[0].price,
                 bars[i].close)])
    else s
  }

  function BreakDown(bars: seq<Bar>, i: nat, s: Progress, scope: Scope): Progress
    requires i < |bars|
  {
    var p := s.pivots;
    if p.lows != [] && |p.highs| > 1 && bars[i].close < p.lows[0].price then
      var kind := if p.trend > 0 then if p.highs[0].price < p.highs[1].price then CHoCHPlus else CHoCH else BOS;
      Progress(p.(trend := -1, lows := []),
               s.events + [Event(i, bars[i].timestamp, kind, scope, Short, p.lows[0].index, p.lows[0].price,
                 bars[i].close)])
    else s
  }

  /** `_check_breakouts`: up first, then down on what is left. */
  function Check(bars: seq<Bar>, i: nat, s: Progress, scope: Scope): Progress
    requires i < |bars|
  {
    BreakDown(bars, i, BreakUp(bars, i, s, scope), scope)
  }

  /** One bar of one scope. */
  function Advance(bars: seq<Bar>, lookback: nat, scope: Scope, i: nat, s: Progress): Progress
    requires i < |bars|
  {
    Check(bars, i, Progress(Collect(bars, i, lookback, s.pivots), s.events), scope)
  }

  /** One scope on its own. */
  function ScopeRun(bars: seq<Bar>, lookback: nat, scope: Scope, n: nat): Progress
    requires n <= |bars|
  {
    if n == 0 then Progress(NONE, []) else Advance(bars, lookback, scope, n - 1, ScopeRun(bars, lookback, scope, n - 1))
  }

  datatype Config = Config(internalLookback: nat, swingLookback: nat, useSwing: bool)

  /** The interleaved report with the pivots of both scopes, as the loop carries them. */
  datatype Both = Both(events: seq<Event>, internal: Pivots, swing: Pivots)

  /** One bar of the report: what the internal scope found, then what the swing scope found. */
  function Next(bars: seq<Bar>, cfg: Config, i: nat, b: Both): Both
    requires i < |bars|
  {
    var internal := Advance(bars, cfg.internalLookback, Internal, i, Progress(b.internal, b.events));
    if cfg.useSwing then
      var swing := Advance(bars, cfg.swingLookback, Swing, i, Progress(b.swing, internal.events));
      Both(swing.events, internal.pivots, swing.pivots)
    else
      Both(internal.events, internal.pivots, Collect(bars, i, cfg.swingLookback, b.swing))
  }

  /** Both scopes interleaved, as `generate` reports them. */
  function Run(bars: seq<Bar>, cfg: Config, n: nat): Both
    requires n <= |bars|
  {
    if n == 0 then Both([], NONE, NONE) else Next(bars, cfg, n - 1, Run(bars, cfg, n - 1))
  }

  function OfScope(events: seq<Event>, scope: Scope): seq<Event> {
    if events == [] then []
    else OfScope(events[..|events| - 1], scope) + if events[|events| - 1].scope == scope
        then [events[|events| - 1]] else []
  }

  /** Descending pivots, all confirmed before bar n and later than every pivot the side already broke. */
  ghost predicate Fresh(pivots: seq<Pivot>, events: seq<Event>, side: Side, lookback: nat, n: nat) {
    && |pivots| <= 10
    && (forall i :: 0 <= i < |pivots| ==> lookback <= pivots[i].index && pivots[i].index + lookback < n)
    && (forall i, j :: 0 <= i < j < |pivots| ==> pivots[i].index > pivots[j].index)
    && (forall i, e :: 0 <= i < |pivots| && 0 <= e < |events| && events[e].side == side ==>
          pivots[i].index > events[e].pivotIndex)
  }

  /** The trend is the side of the last event. */
  predicate TrendFollows(trend: int, events: seq<Event>) {
    if events == [] then trend == 0
    else trend == if events[|events| - 1].side == Long then 1 else -1
  }

  /** A change of character is exactly a break against the previous one. */
  ghost predicate KindFits(events: seq<Event>, k: nat)
    requires k < |events|
  {
    events[k].kind != BOS <==> k > 0 && events[k - 1].side != events[k].side
  }

  /** Events in bar order, at most one a bar, each of a pivot confirmed by then and later than the
      pivots its side broke before. */
  ghost predicate Ordered(events: seq<Event>, lookback: nat, scope: Scope, n: nat) {
    && (forall k :: 0 <= k < |events| ==>
          events[k].scope == scope && 0 <= events[k].index < n
          && lookback <= events[k].pivotIndex && events[k].pivotIndex + lookback <= events[k].index)
    && (forall j, k :: 0 <= j < k < |events| ==> events[j].index < events[k].index)
    && (forall j, k :: 0 <= j < k < |events| && events[j].side == events[k].side ==>
          events[j].pivotIndex < events[k].pivotIndex)
    && (forall k :: 0 <= k < |events| ==> KindFits(events, k))
  }

  ghost predicate Inv(s: Progress, lookback: nat, scope: Scope, n: nat) {
    && Fresh(s.pivots.highs, s.events, Long, lookback, n)
    && Fresh(s.pivots.lows, s.events, Short, lookback, n)
    && TrendFollows(s.pivots.trend, s.events)
    && Ordered(s.events, lookback, scope, n)
  }

  lemma PushKeepsFresh(pivots: seq<Pivot>, events: seq<Event>, side: Side, lookback: nat, at: nat, price: real)
    requires Fresh(pivots, events, side, lookback, at + lookback) && lookback <= at
    requires forall e :: 0 <= e < |events| ==> events[e].pivotIndex < at
    ensures Fresh(Front([Pivot(at, price)] + pivots, 10), events, side, lookback, at + lookback + 1)
  {
  }

  lemma FreshWaits(pivots: seq<Pivot>, events: seq<Event>, side: Side, lookback: nat, n: nat)
    requires Fresh(pivots, events, side, lookback, n)
    ensures Fresh(pivots, events, side, lookback, n + 1)
  {
  }

  lemma CollectHighs(bars: seq<Bar>, p: Pivots, events: seq<Event>, lookback: nat, n: nat)
    requires n < |bars| && Fresh(p.highs, events, Long, lookback, n)
    requires forall e :: 0 <= e < |events| ==> events[e].pivotIndex + lookback < n
    ensures Fresh(Collect(bars, n, lookback, p).highs, events, Long, lookback, n + 1)
  {
    FreshWaits(p.highs, events, Long, lookback, n);
    if n >= 2 * lookback {
      PushKeepsFresh(p.highs, events, Long, lookback, n - lookback, bars[n - lookback].high);
    }
  }

  lemma CollectLows(bars: seq<Bar>, p: Pivots, events: seq<Event>, lookback: nat, n: nat)
    requires n < |bars| && Fresh(p.lows, events, Short, lookback, n)
    requires forall e :: 0 <= e < |events| ==> events[e].pivotIndex + lookback < n
    ensures Fresh(Collect(bars, n, lookback, p).lows, events, Short, lookback, n + 1)
  {
    FreshWaits(p.lows, events, Short, lookback, n);
    if n >= 2 * lookback {
      PushKeepsFresh(p.lows, events, Short, lookback, n - lookback, bars[n - lookback].low);
    }
  }

  lemma OrderedWaits(events: seq<Event>, lookback: nat, scope: Scope, n: nat)
    requires Ordered(events, lookback, scope, n)
    ensures Ordered(events, lookback, scope, n + 1)
    ensures forall e :: 0 <= e < |events| ==> events[e].pivotIndex + lookback < n
  {
  }

  lemma CollectKeeps(bars: seq<Bar>, s: Progress, lookback: nat, scope: Scope, n: nat)
    requires n < |bars| && Inv(s, lookback, scope, n)
    ensures Inv(Progress(Collect(bars, n, lookback, s.pivots), s.events), lookback, scope, n + 1)
  {
    OrderedWaits(s.events, lookback, scope, n);
    CollectHighs(bars, s.pivots, s.events, lookback, n);
    CollectLows(bars, s.pivots, s.events, lookback, n);
  }

  lemma AppendKeepsOrdered(events: seq<Event>, e: Event, lookback: nat, scope: Scope, n: nat)
    requires Ordered(events, lookback, scope, n)
    requires e.index == n && e.scope == scope && lookback <= e.pivotIndex && e.pivotIndex + lookback <= n
    requires forall k :: 0 <= k < |events| && events[k].side == e.side ==> events[k].pivotIndex < e.pivotIndex
    requires e.kind != BOS <==> events != [] && events[|events| - 1].side != e.side
    ensures Ordered(events + [e], lookback, scope, n + 1)
  {
    var all := events + [e];
    forall k | 0 <= k < |all| ensures KindFits(all, k) {
      if k < |events| { assert KindFits(events, k); }
    }
  }

  /** A break on bar n: the other side keeps its pivots, the broken side's are cleared. */
  lemma BreakUpKeeps(bars: seq<Bar>, s: Progress, lookback: nat, scope: Scope, n: nat)
    requires n < |bars| && Inv(s, lookback, scope, n + 1) && Ordered(s.events, lookback, scope, n)
    ensures Inv(BreakUp(bars, n, s, scope), lookback, scope, n + 1)
  {
    var t := BreakUp(bars, n, s, scope);
    if t.events != s.events {
      AppendKeepsOrdered(s.events, t.events[|s.events|], lookback, scope, n);
    }
  }

  lemma BreakDownKeeps(bars: seq<Bar>, s: Progress, lookback: nat, scope: Scope, n: nat)
    requires n < |bars| && Inv(s, lookback, scope, n + 1) && Ordered(s.events, lookback, scope, n)
    ensures Inv(BreakDown(bars, n, s, scope), lookback, scope, n + 1)
  {
    var t := BreakDown(bars, n, s, scope);
    if t.events != s.events {
      AppendKeepsOrdered(s.events, t.events[|s.events|], lookback, scope, n);
    }
  }

  /** Both breaks cannot happen on one bar: the first clears what the second needs. */
  lemma OneBreakAtMost(bars: seq<Bar>, i: nat, s: Progress, scope: Scope)
    requires i < |bars|
    ensures BreakUp(bars, i, s, scope) == s || Check(bars, i, s, scope) == BreakUp(bars, i, s, scope)
    ensures |Check(bars, i, s, scope).events| <= |s.events| + 1
  {
  }

  lemma AdvanceKeeps(bars: seq<Bar>, lookback: nat, scope: Scope, i: nat, s: Progress)
    requires i < |bars| && Inv(s, lookback, scope, i)
    ensures Inv(Advance(bars, lookback, scope, i, s), lookback, scope, i + 1)
  {
    var collected := Progress(Collect(bars, i, lookback, s.pivots), s.events);
    CollectKeeps(bars, s, lookback, scope, i);
    OneBreakAtMost(bars, i, collected, scope);
    if BreakUp(bars, i, collected, scope) == collected {
      BreakDownKeeps(bars, collected, lookback, scope, i);
    } else {
      BreakUpKeeps(bars, collected, lookback, scope, i);
    }
  }

  lemma SameProgress(s: Progress, t: Progress, lookback: nat, scope: Scope, n: nat)
    requires s == t && Inv(s, lookback, scope, n)
    ensures Inv(t, lookback, scope, n)
  {
  }

  lemma NothingKeeps(lookback: nat, scope: Scope)
    ensures Inv(Progress(NONE, []), lookback, scope, 0)
  {
  }

  lemma ScopeRunKeeps(bars: seq<Bar>, lookback: nat, scope: Scope, n: nat)
    requires n <= |bars|
    ensures Inv(ScopeRun(bars, lookback, scope, n), lookback, scope, n)
  {
    NothingKeeps(lookback, scope);
    for i := 0 to n
      invariant Inv(ScopeRun(bars, lookback, scope, i), lookback, scope, i)
    {
      StepKeeps(bars, lookback, scope, i);
    }
  }

  lemma StepKeeps(bars: seq<Bar>, lookback: nat, scope: Scope, i: nat)
    requires i < |bars| && Inv(ScopeRun(bars, lookback, scope, i), lookback, scope, i)
    ensures Inv(ScopeRun(bars, lookback, scope, i + 1), lookback, scope, i + 1)
  {
    var s := ScopeRun(bars, lookback, scope, i);
    AdvanceKeeps(bars, lookback, scope, i, s);
    SameProgress(Advance(bars, lookback, scope, i, s), ScopeRun(bars, lookback, scope, i + 1), lookback, scope, i + 1);
  }

  ghost predicate TrueHigh(bars: seq<Bar>, p: Pivot, lookback: nat) {
    && lookback <= p.index && p.index + lookback < |bars|
    && IsHigh(bars, p.index, lookback) && p.price == bars[p.index].high
  }

  ghost predicate TrueLow(bars: seq<Bar>, p: Pivot, lookback: nat) {
    && lookback <= p.index && p.index + lookback < |bars|
    && IsLow(bars, p.index, lookback) && p.price == bars[p.index].low
  }

  /** An event breaks a true extremum of its side, on the close. */
  ghost predicate Breaks(bars: seq<Bar>, e: Event, lookback: nat) {
    var p := Pivot(e.pivotIndex, e.pivotPrice);
    && 0 <= e.index < |bars| && e.breakoutPrice == bars[e.index].close
    && if e.side == Long then TrueHigh(bars, p, lookback) && e.breakoutPrice > p.price
       else TrueLow(bars, p, lookback) && e.breakoutPrice < p.price
  }

  ghost predicate True(bars: seq<Bar>, s: Progress, lookback: nat) {
    && (forall p :: p in s.pivots.highs ==> TrueHigh(bars, p, lookback))
    && (forall p :: p in s.pivots.lows ==> TrueLow(bars, p, lookback))
    && (forall e :: e in s.events ==> Breaks(bars, e, lookback))
  }

  lemma FrontIsPart<T>(x: T, items: seq<T>, k: nat)
    ensures forall y :: y in Front([x] + items, k) ==> y == x || y in items
  {
  }

  lemma CollectStaysTrue(bars: seq<Bar>, s: Progress, lookback: nat, n: nat)
    requires n < |bars| && True(bars, s, lookback)
    ensures True(bars, Progress(Collect(bars, n, lookback, s.pivots), s.events), lookback)
  {
    if n >= 2 * lookback {
      var at := n - lookback;
      FrontIsPart(Pivot(at, bars[at].high), s.pivots.highs, 10);
      FrontIsPart(Pivot(at, bars[at].low), s.pivots.lows, 10);
    }
  }

  lemma BreakUpStaysTrue(bars: seq<Bar>, s: Progress, lookback: nat, scope: Scope, n: nat)
    requires n < |bars| && True(bars, s, lookback)
    ensures True(bars, BreakUp(bars, n, s, scope), lookback)
  {
    if s.pivots.highs != [] { assert TrueHigh(bars, s.pivots.highs[0], lookback); }
  }

  lemma BreakDownStaysTrue(bars: seq<Bar>, s: Progress, lookback: nat, scope: Scope, n: nat)
    requires n < |bars| && True(bars, s, lookback)
    ensures True(bars, BreakDown(bars, n, s, scope), lookback)
  {
    if s.pivots.lows != [] { assert TrueLow(bars, s.pivots.lows[0], lookback); }
  }

  lemma AdvanceStaysTrue(bars: seq<Bar>, lookback: nat, scope: Scope, i: nat, s: Progress)
    requires i < |bars| && True(bars, s, lookback)
    ensures True(bars, Advance(bars, lookback, scope, i, s), lookback)
  {
    var collected := Progress(Collect(bars, i, lookback, s.pivots), s.events);
    CollectStaysTrue(bars, s, lookback, i);
    BreakUpStaysTrue(bars, collected, lookback, scope, i);
    BreakDownStaysTrue(bars, BreakUp(bars, i, collected, scope), lookback, scope, i);
  }

  lemma ScopeRunStaysTrue(bars: seq<Bar>, lookback: nat, scope: Scope, n: nat)
    requires n <= |bars|
    ensures True(bars, ScopeRun(bars, lookback, scope, n), lookback)
  {
    for i := 0 to n
      invariant True(bars, ScopeRun(bars, lookback, scope, i), lookback)
    {
      AdvanceStaysTrue(bars, lookback, scope, i, ScopeRun(bars, lookback, scope, i));
    }
  }

  /** A scope's bar appends at most one event, of its scope, that depends on its pivots alone. */
  lemma AdvanceAppends(bars: seq<Bar>, lookback: nat, scope: Scope, i: nat, p: Pivots, a: seq<Event>, b: seq<Event>)
    returns (found: seq<Event>)
    requires i < |bars|
    ensures |found| <= 1 && (found != [] ==> found[0].scope == scope && found[0].index == i)
    ensures Advance(bars, lookback, scope, i, Progress(p, a)).events == a + found
    ensures Advance(bars, lookback, scope, i, Progress(p, b)).events == b + found
    ensures Advance(bars, lookback, scope, i, Progress(p, a)).pivots
        == Advance(bars, lookback, scope, i, Progress(p, b)).pivots
  {
    var collected := Collect(bars, i, lookback, p);
    OneBreakAtMost(bars, i, Progress(collected, a), scope);
    OneBreakAtMost(bars, i, Progress(collected, b), scope);
    found := Advance(bars, lookback, scope, i, Progress(p, a)).events[|a|..];
  }

  lemma OfScopeAppend(events: seq<Event>, found: seq<Event>, scope: Scope)
    requires |found| <= 1
    ensures OfScope(events + found, scope) ==
            OfScope(events, scope) + if found != [] && found[0].scope == scope then found else []
  {
    if found == [] {
      assert events + found == events;
    } else {
      assert (events + found)[..|events|] == events;
      assert found == [found[0]];
    }
  }

  /** What one bar appends to the report: at most one event of each scope, the internal one first. */
  lemma NextAppends(bars: seq<Bar>, cfg: Config, i: nat, b: Both, internal: seq<Event>, swing: seq<Event>)
    returns (found: seq<Event>, more: seq<Event>)
    requires i < |bars|
    ensures |found| <= 1 && (found != [] ==> found[0].scope == Internal && found[0].index == i)
    ensures |more| <= 1 && (more != [] ==> cfg.useSwing && more[0].scope == Swing && more[0].index == i)
    ensures Next(bars, cfg, i, b).events == (b.events + found) + more
    ensures var own := Advance(bars, cfg.internalLookback, Internal, i, Progress(b.internal, internal));
            own.events == internal + found && own.pivots == Next(bars, cfg, i, b).internal
    ensures cfg.useSwing ==>
              var own := Advance(bars, cfg.swingLookback, Swing, i, Progress(b.swing, swing));
              own.events == swing + more && own.pivots == Next(bars, cfg, i, b).swing
  {
    found := AdvanceAppends(bars, cfg.internalLookback, Internal, i, b.internal, b.events, internal);
    if cfg.useSwing {
      more := AdvanceAppends(bars, cfg.swingLookback, Swing, i, b.swing, b.events + found, swing);
    } else {
      more := [];
    }
  }

  /** The report so far, restricted to a scope, is that scope's own progress. */
  ghost predicate InternalTied(bars: seq<Bar>, cfg: Config, n: nat)
    requires n <= |bars|
  {
    var b, own := Run(bars, cfg, n), ScopeRun(bars, cfg.internalLookback, Internal, n);
    OfScope(b.events, Internal) == own.events && b.internal == own.pivots
  }

  ghost predicate SwingTied(bars: seq<Bar>, cfg: Config, n: nat)
    requires n <= |bars|
  {
    var b, own := Run(bars, cfg, n), ScopeRun(bars, cfg.swingLookback, Swing, n);
    if cfg.useSwing then OfScope(b.events, Swing) == own.events && b.swing == own.pivots
    else OfScope(b.events, Swing) == []
  }

  lemma OfBothScopes(events: seq<Event>, found: seq<Event>, more: seq<Event>)
    requires |found| <= 1 && (found != [] ==> found[0].scope == Internal)
    requires |more| <= 1 && (more != [] ==> more[0].scope == Swing)
    ensures OfScope((events + found) + more, Internal) == OfScope(events, Internal) + found
    ensures OfScope((events + found) + more, Swing) == OfScope(events, Swing) + more
  {
    OfScopeAppend(events, found, Internal);
    OfScopeAppend(events, found, Swing);
    OfScopeAppend(events + found, more, Internal);
    OfScopeAppend(events + found, more, Swing);
  }

  lemma InternalStaysTied(bars: seq<Bar>, cfg: Config, i: nat)
    requires i < |bars| && InternalTied(bars, cfg, i)
    ensures InternalTied(bars, cfg, i + 1)
  {
    var b, own := Run(bars, cfg, i), ScopeRun(bars, cfg.internalLookback, Internal, i);
    var found, more := NextAppends(bars, cfg, i, b, own.events, []);
    OfBothScopes(b.events, found, more);
    assert own == Progress(b.internal, own.events);
  }

  lemma SwingStaysTied(bars: seq<Bar>, cfg: Config, i: nat)
    requires i < |bars| && SwingTied(bars, cfg, i)
    ensures SwingTied(bars, cfg, i + 1)
  {
    var b, own := Run(bars, cfg, i), ScopeRun(bars, cfg.swingLookback, Swing, i);
    var found, more := NextAppends(bars, cfg, i, b, [], own.events);
    OfBothScopes(b.events, found, more);
    if cfg.useSwing {
      assert own == Progress(b.swing, own.events);
    }
  }

  lemma NothingIsTied(bars: seq<Bar>, cfg: Config)
    ensures InternalTied(bars, cfg, 0) && SwingTied(bars, cfg, 0)
  {
  }

  lemma InternalIsTied(bars: seq<Bar>, cfg: Config, n: nat)
    requires n <= |bars|
    ensures InternalTied(bars, cfg, n)
  {
    NothingIsTied(bars, cfg);
    for i := 0 to n
      invariant InternalTied(bars, cfg, i)
    {
      InternalStaysTied(bars, cfg, i);
    }
  }

  lemma SwingIsTied(bars: seq<Bar>, cfg: Config, n: nat)
    requires n <= |bars|
    ensures SwingTied(bars, cfg, n)
  {
    NothingIsTied(bars, cfg);
    for i := 0 to n
      invariant SwingTied(bars, cfg, i)
    {
      SwingStaysTied(bars, cfg, i);
    }
  }

  /** The interleaved report, read scope by scope, is each scope's own run. */
  lemma ScopesAreIndependent(bars: seq<Bar>, cfg: Config, n: nat)
    requires n <= |bars|
    ensures InternalTied(bars, cfg, n) && SwingTied(bars, cfg, n)
  {
    InternalIsTied(bars, cfg, n);
    SwingIsTied(bars, cfg, n);
  }

  /** The runs of market structure, scope by scope: at most one event a bar, in order; each break is of
      a confirmed true extremum, on the close; same-side breaks are of ever later pivots; and CHoCH or
      CHoCH+ is reported exactly when the previous event had the opposite side. */
  lemma StructureRuns(bars: seq<Bar>, cfg: Config, scope: Scope)
    ensures var events := OfScope(Run(bars, cfg, |bars|).events, scope);
            var lookback := if scope == Internal then cfg.internalLookback else cfg.swingLookback;
            && Ordered(events, lookback, scope, |bars|)
            && forall e :: e in events ==> Breaks(bars, e, lookback)
  {
    ScopesAreIndependent(bars, cfg, |bars|);
    var lookback := if scope == Internal then cfg.internalLookback else cfg.swingLookback;
    ScopeRunKeeps(bars, lookback, scope, |bars|);
    ScopeRunStaysTrue(bars, lookback, scope, |bars|);
  }

  /** The mutable pivot record of one scope. */
  class PivotState {
    var highs: seq<Pivot>
    var lows: seq<Pivot>
    var trend: int

    function View(): Pivots
      reads this
    {
      Pivots(highs, lows, trend)
    }

    constructor ()
      ensures View() == NONE
    {
      highs, lows, trend := [], [], 0;
    }

    method CollectPivot(bars: seq<Bar>, i: nat, lookback: nat)
      requires i < |bars|
      modifies this
      ensures View() == Collect(bars, i, lookback, old(View()))
    {
      if i < lookback * 2 {
        return;
      }
      var at := i - lookback;
      if IsHigh(bars, at, lookback) {
        highs := [Pivot(at, bars[at].high)] + highs;
        highs := Front(highs, 10);
      }
      if IsLow(bars, at, lookback) {
        lows := [Pivot(at, bars[at].low)] + lows;
        lows := Front(lows, 10);
      }
    }

    /** Appends to the report. */
    method CheckBreakouts(bars: seq<Bar>, i: nat, scope: Scope, report: seq<Event>) returns (events: seq<Event>)
      requires i < |bars|
      modifies this
      ensures Progress(View(), events) == Check(bars, i, Progress(old(View()), report), scope)
    {
      events := report;
      var close := bars[i].close;
      if highs != [] && |lows| > 1 && close > highs[0].price {
        var kind := BOS;
        if trend < 0 {
          kind := if lows[0].price > lows[1].price then CHoCHPlus else CHoCH;
        }
        events := events + [Event(i, bars[i].timestamp, kind, scope, Long, highs[0].index, highs[0].price, close)];
        trend := 1;
        highs := [];
      }
      if lows != [] && |highs| > 1 && close < lows[0].price {
        var kind := BOS;
        if trend > 0 {
          kind := if highs[0].price < highs[1].price then CHoCHPlus else CHoCH;
        }
        events := events + [Event(i, bars[i].timestamp, kind, scope, Short, lows[0].index, lows[0].price, close)];
        trend := -1;
        lows := [];
      }
    }
  }

  /** One bar of the loop: collect pivots in both scopes, then check for breaks. */
  method OneBar(bars: seq<Bar>, cfg: Config, i: nat, internal: PivotState, swing: PivotState, report: seq<Event>)
    returns (events: seq<Event>)
    requires i < |bars| && internal != swing
    modifies internal, swing
    ensures Both(events, internal.View(), swing.View()) ==
            Next(bars, cfg, i, Both(report, old(internal.View()), old(swing.View())))
  {
    internal.CollectPivot(bars, i, cfg.internalLookback);
    swing.CollectPivot(bars, i, cfg.swingLookback);
    events := internal.CheckBreakouts(bars, i, Internal, report);
    if cfg.useSwing {
      events := swing.CheckBreakouts(bars, i, Swing, events);
    }
  }

  /** `generate`. */
  method Generate(bars: seq<Bar>, cfg: Config) returns (events: seq<Event>)
    ensures events == Run(bars, cfg, |bars|).events
  {
    events := [];
    var internal := new PivotState();
    var swing := new PivotState();
    for i := 0 to |bars|
      invariant Both(events, internal.View(), swing.View()) == Run(bars, cfg, i)
    {
      events := OneBar(bars, cfg, i, internal, swing, events);
    }
  }
}
