/** The journal of a zoom run: for every trade the bar and candle that opened it, what it was held through, and the
    first candle that could close it; and between trades, that nothing could be opened. */
module ZoomJournal {
  import opened Options
  import opened Sides
  import opened Ledger
  import opened TradeTerms
  import opened ZoomEngine

  predicate Zoomed(bar: Bar) {
    bar.signals.startLong || bar.signals.startShort || bar.signals.endLong || bar.signals.endShort
  }

  // ---------------------------------------------------------------- leaving

  /** A child at which the position is left: its stop is traded at, or, on a bar with a signal, its side ends. */
  predicate Leaves(p: Position, bar: Bar, k: nat)
    requires k < |bar.children|
  {
    Hits(p, bar.children[k].candle) || (Zoomed(bar) && Ends(p.side, bar.children[k].signals))
  }

  predicate Quiet(p: Position, bar: Bar, from: nat, to: nat)
    requires to <= |bar.children|
  {
    forall k :: from <= k < to ==> !Leaves(p, bar, k)
  }

  /** Neither the bar nor any of its children closes the position. */
  predicate QuietBar(p: Position, bar: Bar) {
    Quiet(p, bar, 0, |bar.children|) && !Hits(p, bar.candle) && !Ends(p.side, bar.signals)
  }

  /** The trade is closed at the first child, from the given one on, at which the position is left: at the stop if that
      was traded at, and otherwise on the worse side of the child. */
  ghost predicate LeftAtChild(t: Trade, p: Position, bar: Bar, from: nat, bars: int, cfg: Config) {
    exists k :: from <= k < |bar.children| && Quiet(p, bar, from, k) && Leaves(p, bar, k)
                && SettledAt(t, p, bar.children[k].candle, bars, cfg)
  }

  ghost predicate SettledAt(t: Trade, p: Position, c: Candle, bars: int, cfg: Config) {
    if Hits(p, c) then Settles(t, p, p.stopPrice, c.timestamp, RiskExit, bars, cfg)
    else ClosesAt(p.side, t.exitPrice, c) && Settles(t, p, t.exitPrice, c.timestamp, LorentzExit, bars, cfg)
  }

  /** The trade is closed by the bar itself, after children that did not close it: at the stop, or at the close. */
  ghost predicate LeftAtBar(t: Trade, p: Position, bar: Bar, bars: int, cfg: Config) {
    && Quiet(p, bar, 0, |bar.children|)
    && if Hits(p, bar.candle) then Settles(t, p, p.stopPrice, bar.candle.timestamp, RiskExit, bars, cfg)
       else Ends(p.side, bar.signals) && Settles(t, p, bar.candle.close, bar.candle.timestamp, LorentzExit, bars, cfg)
  }

  lemma LeavesIsExitsAt(p: Position, bar: Bar, k: nat)
    requires k < |bar.children|
    ensures ExitsAt(p, bar.children[k], bar.NeedsZoom()) == Leaves(p, bar, k)
  {
    SameTests(p, bar.children[k].candle, bar.children[k].signals);
  }

  lemma FirstExitIsFirst(p: Position, bar: Bar, i: nat) returns (k: nat)
    requires i <= |bar.children|
    ensures k == FirstExit(p, bar.children, i, bar.NeedsZoom()) && i <= k <= |bar.children|
    ensures Quiet(p, bar, i, k) && (k < |bar.children| ==> Leaves(p, bar, k))
  {
    k := FirstExit(p, bar.children, i, bar.NeedsZoom());
    forall j: nat | j < |bar.children|
      ensures ExitsAt(p, bar.children[j], bar.NeedsZoom()) == Leaves(p, bar, j)
    {
      LeavesIsExitsAt(p, bar, j);
    }
  }

  /** Watching the children keeps the position exactly when all are quiet, and otherwise books it at the first that is
      not. */
  lemma WatchExactly(a: Account, bar: Bar, i: nat, index: int, cfg: Config)
    requires a.position.Some? && i <= |bar.children|
    ensures var p, b := a.position.value, WatchChildren(a, bar, i, index, cfg);
            if Quiet(p, bar, i, |bar.children|) then b == a
            else b.trades != [] && Books(a, b, Last(b)) && LeftAtChild(Last(b), p, bar, i, index - p.entryIndex, cfg)
  {
    var p := a.position.value;
    var k := FirstExitIsFirst(p, bar, i);
    if k < |bar.children| {
      var c := bar.children[k].candle;
      SameTests(p, c, bar.children[k].signals);
      CloseBooks(a, c.timestamp, p.stopPrice, cfg, RiskExit, index);
      CloseBooks(a, c.timestamp, CloseFill(p.side, c), cfg, LorentzExit, index);
      assert SettledAt(Last(WatchChildren(a, bar, i, index, cfg)), p, c, index - p.entryIndex, cfg);
    }
  }

  /** The same for the bar, once its children were quiet. */
  lemma WatchBarExactly(a: Account, bar: Bar, index: int, cfg: Config)
    requires a.position.Some? && Quiet(a.position.value, bar, 0, |bar.children|)
    ensures var p, b := a.position.value, WatchBar(a, bar, index, cfg);
            if QuietBar(p, bar) then b == a
            else b.trades != [] && Books(a, b, Last(b)) && LeftAtBar(Last(b), p, bar, index - p.entryIndex, cfg)
  {
    var p, c := a.position.value, bar.candle;
    SameTests(p, c, bar.signals);
    CloseBooks(a, c.timestamp, p.stopPrice, cfg, RiskExit, index);
    CloseBooks(a, c.timestamp, c.close, cfg, LorentzExit, index);
  }

  /** A position handed to a bar is kept exactly when the bar is quiet, and otherwise booked by its first candle that is
      not, children first. */
  lemma ManagedExactly(a: Account, bar: Bar, index: int, cfg: Config)
    requires a.position.Some?
    ensures var p, b := a.position.value, ManageOpen(a, bar, index, cfg);
            if QuietBar(p, bar) then b == a
            else b.trades != [] && Books(a, b, Last(b))
                 && (LeftAtChild(Last(b), p, bar, 0, index - p.entryIndex, cfg)
                     || LeftAtBar(Last(b), p, bar, index - p.entryIndex, cfg))
  {
    WatchExactly(a, bar, 0, index, cfg);
    if Quiet(a.position.value, bar, 0, |bar.children|) {
      WatchBarExactly(a, bar, index, cfg);
    }
  }

  // ---------------------------------------------------------------- entering

  /** The side cannot be opened on this child: not started, or no size affordable. */
  ghost predicate ClosedAtChild(side: Side, c: Child, equity: real, cfg: Config) {
    !Starts(side, c.signals, cfg)
    || forall price :: OpensAt(side, price, c.candle) ==> !Openable(side, price, c.atr, equity, cfg.risk)
  }

  ghost predicate NothingAtChild(c: Child, equity: real, cfg: Config) {
    ClosedAtChild(Long, c, equity, cfg) && ClosedAtChild(Short, c, equity, cfg)
  }

  ghost predicate NothingBefore(bar: Bar, k: nat, equity: real, cfg: Config)
    requires k <= |bar.children|
  {
    forall j :: 0 <= j < k ==> NothingAtChild(bar.children[j], equity, cfg)
  }

  /** Nothing can be opened on the bar. */
  ghost predicate NothingOn(bar: Bar, equity: real, cfg: Config) {
    && (Zoomed(bar) ==> NothingBefore(bar, |bar.children|, equity, cfg))
    && NothingAtClose(bar.signals, bar.candle, bar.atr, equity, cfg)
  }

  /** The position is what a flat account opens on the bar: at the first child on which something can be opened, long
      before short, or else at the close. */
  ghost predicate Enters(p: Position, bar: Bar, child: Option<nat>, index: int, equity: real, cfg: Config) {
    && p.entryIndex == index
    && match child
       case Some(k) =>
         && Zoomed(bar) && k < |bar.children| && NothingBefore(bar, k, equity, cfg)
         && OpensAt(p.side, p.entryPrice, bar.children[k].candle)
         && OpenedOn(p, bar.children[k].candle, bar.children[k].signals, bar.children[k].atr, equity, cfg)
         && (p.side == Short ==> ClosedAtChild(Long, bar.children[k], equity, cfg))
       case None =>
         && (Zoomed(bar) ==> NothingBefore(bar, |bar.children|, equity, cfg))
         && OpenedAtClose(p, bar.candle, bar.signals, bar.atr, equity, cfg)
  }

  lemma SideAtChild(side: Side, c: Child, index: int, equity: real, cfg: Config)
    ensures var p := TryOpen(side, OpenFill(side, c.candle), c.atr, c.candle.timestamp, index, equity, cfg);
            && OpensAt(side, OpenFill(side, c.candle), c.candle)
            && (Starts(side, c.signals, cfg) ==> (p.None? <==> ClosedAtChild(side, c, equity, cfg)))
            && (Starts(side, c.signals, cfg) && p.Some? ==>
                  && p.value.side == side && p.value.entryIndex == index
                  && p.value.entryPrice == OpenFill(side, c.candle)
                  && OpenedOn(p.value, c.candle, c.signals, c.atr, equity, cfg))
  {
    OpensExactly(side, OpenFill(side, c.candle), c.atr, c.candle.timestamp, index, equity, cfg);
    assert forall price :: OpensAt(side, price, c.candle) <==> price == OpenFill(side, c.candle);
  }

  lemma ChildEntryExactly(c: Child, index: int, equity: real, cfg: Config)
    ensures var p := ChildEntry(c, index, equity, cfg);
            && (p.None? <==> NothingAtChild(c, equity, cfg))
            && (p.Some? ==>
                  && p.value.entryIndex == index && OpensAt(p.value.side, p.value.entryPrice, c.candle)
                  && OpenedOn(p.value, c.candle, c.signals, c.atr, equity, cfg)
                  && (p.value.side == Short ==> ClosedAtChild(Long, c, equity, cfg)))
  {
    SideAtChild(Long, c, index, equity, cfg);
    SideAtChild(Short, c, index, equity, cfg);
  }

  lemma BarEntryExactly(bar: Bar, index: int, equity: real, cfg: Config)
    ensures var p := BarEntry(bar, index, equity, cfg);
            && (p.None? <==> NothingAtClose(bar.signals, bar.candle, bar.atr, equity, cfg))
            && (p.Some? ==>
                  p.value.entryIndex == index && OpenedAtClose(p.value, bar.candle, bar.signals, bar.atr, equity, cfg))
  {
    OpensExactly(Long, bar.candle.close, bar.atr, bar.candle.timestamp, index, equity, cfg);
    OpensExactly(Short, bar.candle.close, bar.atr, bar.candle.timestamp, index, equity, cfg);
  }

  lemma FirstEntryIsFirst(bar: Bar, index: int, equity: real, cfg: Config) returns (k: nat)
    ensures k == FirstEntry(bar.children, 0, index, equity, cfg) <= |bar.children|
    ensures NothingBefore(bar, k, equity, cfg)
  {
    k := FirstEntry(bar.children, 0, index, equity, cfg);
    forall j | 0 <= j < k ensures NothingAtChild(bar.children[j], equity, cfg) {
      ChildEntryExactly(bar.children[j], index, equity, cfg);
    }
  }

  /** The first child that can close a position opened on the bar: the one after its own, and none for the close. */
  function FirstWatched(bar: Bar, child: Option<nat>): nat {
    if child.Some? then child.value + 1 else |bar.children|
  }

  /** A flat account stays as it is on a bar on which nothing can be opened; on any other it opens the position that the
      bar enters, and the children after the entry keep it or book it. */
  lemma EnterExactly(a: Account, bar: Bar, index: int, cfg: Config) returns (p: Option<Position>, child: Option<nat>)
    requires a.position.None?
    ensures var b := EnterAndWatch(a, bar, index, cfg);
            && (p.None? ==> NothingOn(bar, a.equity, cfg) && b == a)
            && (p.Some? ==>
                  && Enters(p.value, bar, child, index, a.equity, cfg) && FirstWatched(bar, child) <= |bar.children|
                  && if Quiet(p.value, bar, FirstWatched(bar, child), |bar.children|) then b == a.(position := p)
                     else child.Some? && b.trades != [] && Books(a, b, Last(b))
                          && LeftAtChild(Last(b), p.value, bar, child.value + 1, 0, cfg))
  {
    child := None;
    var k := FirstEntryIsFirst(bar, index, a.equity, cfg);
    if bar.NeedsZoom() && k < |bar.children| {
      child, p := Some(k), ChildEntry(bar.children[k], index, a.equity, cfg);
      ChildEntryExactly(bar.children[k], index, a.equity, cfg);
      WatchExactly(a.(position := p), bar, k + 1, index, cfg);
    } else {
      p := BarEntry(bar, index, a.equity, cfg);
      BarEntryExactly(bar, index, a.equity, cfg);
    }
  }

  // ---------------------------------------------------------------- the journal

  /** A position with the bar from which the account could open it, the bar and child that did, and the bar that closed
      it. */
  datatype Story = Story(position: Position, from: nat, bar: nat, child: Option<nat>, exit: nat)

  /** On no bar of the range can anything be opened. */
  ghost predicate Idle(bars: seq<Bar>, from: nat, to: nat, equity: real, cfg: Config)
    requires to <= |bars|
  {
    forall y :: from <= y < to ==> NothingOn(bars[y], equity, cfg)
  }

  /** The position is opened on the first bar on which something can be. */
  ghost predicate Opens(s: Story, bars: seq<Bar>, equity: real, cfg: Config) {
    && s.from <= s.bar < |bars| && Idle(bars, s.from, s.bar, equity, cfg)
    && Enters(s.position, bars[s.bar], s.child, s.bar, equity, cfg)
  }

  /** From its opening up to bar n no candle could close the position. */
  predicate HeldTo(s: Story, bars: seq<Bar>, n: nat)
    requires s.bar < n <= |bars|
  {
    && Quiet(s.position, bars[s.bar], FirstWatched(bars[s.bar], s.child), |bars[s.bar].children|)
    && forall y :: s.bar < y < n ==> QuietBar(s.position, bars[y])
  }

  /** The trade is that of the position, closed by the first candle that could. */
  ghost predicate Tells(s: Story, t: Trade, bars: seq<Bar>, equity: real, cfg: Config) {
    && s.exit < |bars| && Opens(s, bars, equity, cfg)
    && if s.exit == s.bar then s.child.Some? && LeftAtChild(t, s.position, bars[s.bar], s.child.value + 1, 0, cfg)
       else
         && s.bar < s.exit && HeldTo(s, bars, s.exit)
         && (LeftAtChild(t, s.position, bars[s.exit], 0, s.exit - s.bar, cfg)
             || LeftAtBar(t, s.position, bars[s.exit], s.exit - s.bar, cfg))
  }

  /** The bar from which the account can open again: the closing bar itself only if flips are allowed and the position
      was not opened on it. */
  function Resumes(s: Story, cfg: Config): nat {
    if cfg.allowSameBarFlip && s.bar < s.exit then s.exit else s.exit + 1
  }

  function ResumedAt(stories: seq<Story>, k: nat, cfg: Config): nat
    requires k <= |stories|
  {
    if k == 0 then 0 else Resumes(stories[k - 1], cfg)
  }

  /** The stories tell all trades, in order and without a gap. */
  ghost predicate Told(stories: seq<Story>, a: Account, bars: seq<Bar>, cfg: Config) {
    && |stories| == |a.trades| && |a.points| == |stories| + 1 && a.equity == a.points[|stories|]
    && forall k :: 0 <= k < |stories| ==> StoryFits(stories, k, a, bars, cfg)
  }

  ghost predicate StoryFits(stories: seq<Story>, k: nat, a: Account, bars: seq<Bar>, cfg: Config)
    requires k < |stories| == |a.trades| && |a.points| == |stories| + 1
  {
    stories[k].from == ResumedAt(stories, k, cfg) && Tells(stories[k], a.trades[k], bars, a.points[k], cfg)
  }

  /** After n bars: the trades are told, and the account is either flat, with nothing to open since, or holds a position
      that nothing could close. */
  ghost predicate Journal(stories: seq<Story>, a: Account, current: Option<Story>, bars: seq<Bar>, n: nat, cfg: Config)
    requires n <= |bars|
  {
    && Told(stories, a, bars, cfg)
    && if a.position.None? then
         ResumedAt(stories, |stories|, cfg) <= n && Idle(bars, ResumedAt(stories, |stories|, cfg), n, a.equity, cfg)
       else
         && current.Some? && current.value.position == a.position.value && current.value.bar < n
         && current.value.from == ResumedAt(stories, |stories|, cfg)
         && Opens(current.value, bars, a.equity, cfg) && HeldTo(current.value, bars, n)
  }

  lemma OneMoreTold(stories: seq<Story>, s: Story, a: Account, b: Account, t: Trade, bars: seq<Bar>, cfg: Config)
    requires Told(stories, a, bars, cfg) && Books(a, b, t)
    requires s.from == ResumedAt(stories, |stories|, cfg) && Tells(s, t, bars, a.equity, cfg)
    ensures Told(stories + [s], b, bars, cfg)
  {
    var all := stories + [s];
    forall k | 0 <= k < |all| ensures StoryFits(all, k, b, bars, cfg) {
      if k < |stories| {
        assert StoryFits(stories, k, a, bars, cfg);
        assert all[k] == stories[k] && b.trades[k] == a.trades[k] && b.points[k] == a.points[k];
        assert ResumedAt(all, k, cfg) == ResumedAt(stories, k, cfg);
      } else {
        assert all[k] == s && b.trades[k] == t && b.points[k] == a.points[k];
      }
    }
  }

  lemma ToldIgnoresPosition(stories: seq<Story>, a: Account, p: Option<Position>, bars: seq<Bar>, cfg: Config)
    requires Told(stories, a, bars, cfg)
    ensures Told(stories, a.(position := p), bars, cfg)
  {
    forall k | 0 <= k < |stories| ensures StoryFits(stories, k, a.(position := p), bars, cfg) {
      assert StoryFits(stories, k, a, bars, cfg);
    }
  }

  /** A flat account on bar n. */
  lemma FlatBar(stories: seq<Story>, a: Account, bars: seq<Bar>, n: nat, cfg: Config)
    returns (stories': seq<Story>, current': Option<Story>)
    requires n < |bars| && a.position.None? && Told(stories, a, bars, cfg)
    requires ResumedAt(stories, |stories|, cfg) <= n
    requires Idle(bars, ResumedAt(stories, |stories|, cfg), n, a.equity, cfg)
    ensures Journal(stories', EnterAndWatch(a, bars[n], n, cfg), current', bars, n + 1, cfg)
  {
    var p, child := EnterExactly(a, bars[n], n, cfg);
    var b := EnterAndWatch(a, bars[n], n, cfg);
    stories', current' := stories, None;
    if p.Some? {
      var s := Story(p.value, ResumedAt(stories, |stories|, cfg), n, child, n);
      assert Opens(s, bars, a.equity, cfg);
      if b.position.Some? {
        ToldIgnoresPosition(stories, a, p, bars, cfg);
        current' := Some(s);
      } else {
        OneMoreTold(stories, s, a, b, Last(b), bars, cfg);
        stories' := stories + [s];
      }
    }
  }

  /** An account that holds a position, on bar n. */
  lemma HeldBar(stories: seq<Story>, a: Account, current: Story, bars: seq<Bar>, n: nat, cfg: Config)
    returns (stories': seq<Story>, current': Option<Story>)
    requires n < |bars| && a.position.Some? && Journal(stories, a, Some(current), bars, n, cfg)
    ensures Journal(stories', ZoomBar(a, bars[n], n, cfg), current', bars, n + 1, cfg)
  {
    var managed := ManageOpen(a, bars[n], n, cfg);
    ManagedExactly(a, bars[n], n, cfg);
    if QuietBar(current.position, bars[n]) {
      stories', current' := stories, Some(current);
    } else {
      var s := current.(exit := n);
      OneMoreTold(stories, s, a, managed, Last(managed), bars, cfg);
      stories', current' := stories + [s], None;
      if cfg.allowSameBarFlip {
        stories', current' := FlatBar(stories', managed, bars, n, cfg);
      }
    }
  }

  ghost predicate Journaled(stories: seq<Story>, current: Option<Story>, bars: seq<Bar>, n: nat, cfg: Config)
    requires n <= |bars|
  {
    Journal(stories, ZoomRun(bars[..n], cfg), current, bars, n, cfg)
  }

  lemma JournalStep(stories: seq<Story>, current: Option<Story>, bars: seq<Bar>, n: nat, cfg: Config)
    returns (stories': seq<Story>, current': Option<Story>)
    requires n < |bars| && Journaled(stories, current, bars, n, cfg)
    ensures Journaled(stories', current', bars, n + 1, cfg)
  {
    var a := ZoomRun(bars[..n], cfg);
    assert bars[..n + 1][..n] == bars[..n];
    if a.position.None? {
      stories', current' := FlatBar(stories, a, bars, n, cfg);
    } else {
      stories', current' := HeldBar(stories, a, current.value, bars, n, cfg);
    }
  }

  lemma RunHasJournal(bars: seq<Bar>, cfg: Config) returns (stories: seq<Story>, current: Option<Story>)
    ensures Journal(stories, ZoomRun(bars, cfg), current, bars, |bars|, cfg)
  {
    stories, current := [], None;
    for n := 0 to |bars|
      invariant Journaled(stories, current, bars, n, cfg)
    {
      stories, current := JournalStep(stories, current, bars, n, cfg);
    }
    assert bars[..|bars|] == bars;
  }

  /** The trade that the end of the test books for a position still held: at the close of the last bar. */
  ghost predicate ForcedOut(s: Story, t: Trade, bars: seq<Bar>, equity: real, cfg: Config) {
    && Opens(s, bars, equity, cfg) && HeldTo(s, bars, |bars|)
    && var last := bars[|bars| - 1].candle;
       Settles(t, s.position, last.close, last.timestamp, EndOfTest, |bars| - 1 - s.bar, cfg)
  }

  /** The k-th trade of the report is that of the k-th story. Only the last can have been forced. */
  ghost predicate Accounted(stories: seq<Story>, k: nat, r: Account, bars: seq<Bar>, cfg: Config)
    requires k < |stories| == |r.trades| && |r.points| == |stories| + 1
  {
    && stories[k].from == ResumedAt(stories, k, cfg)
    && if r.trades[k].reason == EndOfTest
       then k == |stories| - 1 && ForcedOut(stories[k], r.trades[k], bars, r.points[k], cfg)
       else Tells(stories[k], r.trades[k], bars, r.points[k], cfg)
  }

  lemma ToldIsNotForced(s: Story, t: Trade, bars: seq<Bar>, equity: real, cfg: Config)
    requires Tells(s, t, bars, equity, cfg)
    ensures t.reason != EndOfTest
  {
  }

  lemma ToldIsAccounted(stories: seq<Story>, a: Account, bars: seq<Bar>, cfg: Config)
    requires Told(stories, a, bars, cfg)
    ensures forall k :: 0 <= k < |stories| ==> Accounted(stories, k, a, bars, cfg)
  {
    forall k | 0 <= k < |stories| ensures Accounted(stories, k, a, bars, cfg) {
      assert StoryFits(stories, k, a, bars, cfg);
      ToldIsNotForced(stories[k], a.trades[k], bars, a.points[k], cfg);
    }
  }

  lemma ForcedIsAccounted(stories: seq<Story>, s: Story, a: Account, b: Account, t: Trade, bars: seq<Bar>, cfg: Config)
    requires Told(stories, a, bars, cfg) && Books(a, b, t) && t.reason == EndOfTest
    requires s.from == ResumedAt(stories, |stories|, cfg) && ForcedOut(s, t, bars, a.equity, cfg)
    ensures var all := stories + [s];
            && |all| == |b.trades| && |b.points| == |all| + 1
            && forall k :: 0 <= k < |all| ==> Accounted(all, k, b, bars, cfg)
  {
    var all := stories + [s];
    forall k | 0 <= k < |all| ensures Accounted(all, k, b, bars, cfg) {
      if k < |stories| {
        assert StoryFits(stories, k, a, bars, cfg);
        ToldIsNotForced(stories[k], a.trades[k], bars, a.points[k], cfg);
        assert all[k] == stories[k] && b.trades[k] == a.trades[k] && b.points[k] == a.points[k];
        assert ResumedAt(all, k, cfg) == ResumedAt(stories, k, cfg);
      } else {
        assert all[k] == s && b.trades[k] == t && b.points[k] == a.points[k];
      }
    }
  }

  /**
   * The whole report, trade by trade. Each trade was opened on the first bar on which the account, being flat, could
   * open anything: by a start signal of an allowed side, at the first child it could or else at the close, on the worse
   * side of the child, with the stop at the configured distance on the losing side and the largest affordable size. It
   * was closed by the first candle after that at which its stop was traded at or its side ended. The next trade could
   * open from the bar after, or on the closing bar when flips are allowed. A position held to the end is closed at the
   * last close; otherwise nothing could be opened since the last trade.
   */
  lemma ReportHasJournal(bars: seq<Bar>, cfg: Config) returns (stories: seq<Story>)
    ensures var r := ZoomReport(bars, cfg);
            && |stories| == |r.trades| && |r.points| == |stories| + 1
            && (forall k :: 0 <= k < |stories| ==> Accounted(stories, k, r, bars, cfg))
            && ((stories != [] && r.trades[|stories| - 1].reason == EndOfTest)
                || Idle(bars, ResumedAt(stories, |stories|, cfg), |bars|, r.equity, cfg))
  {
    var current;
    stories, current := RunHasJournal(bars, cfg);
    var a := ZoomRun(bars, cfg);
    if a.position.Some? {
      var last, s := bars[|bars| - 1].candle, current.value;
      CloseBooks(a, last.timestamp, last.close, cfg, EndOfTest, |bars| - 1);
      ForcedIsAccounted(stories, s, a, ZoomReport(bars, cfg), Last(ZoomReport(bars, cfg)), bars, cfg);
      stories := stories + [s];
    } else {
      ToldIsAccounted(stories, a, bars, cfg);
    }
  }

  // ---------------------------------------------------------------- stops lose

  predicate Priced(bar: Bar) {
    && bar.candle.open > 0.0 && bar.candle.close > 0.0
    && forall k :: 0 <= k < |bar.children| ==> bar.children[k].candle.open > 0.0 && bar.children[k].candle.close > 0.0
  }

  lemma EntryIsProtected(p: Position, bar: Bar, child: Option<nat>, index: int, equity: real, cfg: Config)
    requires Enters(p, bar, child, index, equity, cfg) && Priced(bar)
    requires if cfg.risk.useFixedStop then cfg.risk.fixedStopPct > 0.0 else cfg.risk.minStopPct > 0.0
    ensures p.quantity > 0.0 && if p.side == Long then p.stopPrice < p.entryPrice else p.stopPrice > p.entryPrice
  {
    if child.Some? {
      StopIsProtective(p.side, p.entryPrice, p.stopPrice, bar.children[child.value].atr, cfg.risk);
    } else {
      StopIsProtective(p.side, p.entryPrice, p.stopPrice, bar.atr, cfg.risk);
    }
  }

  lemma StopSettles(s: Story, t: Trade, bars: seq<Bar>, equity: real, cfg: Config)
    requires Tells(s, t, bars, equity, cfg) && t.reason == RiskExit
    ensures Settles(t, s.position, s.position.stopPrice, t.exitTimestamp, RiskExit, s.exit - s.bar, cfg)
  {
  }

  /** On positive prices, with a positive stop distance, every trade that the stop closes is closed at a loss. */
  lemma StopExitsLose(bars: seq<Bar>, cfg: Config, k: nat)
    requires forall i :: 0 <= i < |bars| ==> Priced(bars[i])
    requires if cfg.risk.useFixedStop then cfg.risk.fixedStopPct > 0.0 else cfg.risk.minStopPct > 0.0
    requires k < |ZoomReport(bars, cfg).trades| && ZoomReport(bars, cfg).trades[k].reason == RiskExit
    ensures ZoomReport(bars, cfg).trades[k].gross < 0.0
  {
    var r := ZoomReport(bars, cfg);
    var stories := ReportHasJournal(bars, cfg);
    assert Accounted(stories, k, r, bars, cfg);
    var s, t := stories[k], r.trades[k];
    StopSettles(s, t, bars, r.points[k], cfg);
    EntryIsProtected(s.position, bars[s.bar], s.child, s.bar, r.points[k], cfg);
    NegativeProduct(if s.position.side == Long then s.position.stopPrice - s.position.entryPrice
                    else s.position.entryPrice - s.position.stopPrice, s.position.quantity);
  }
}
