/** The journal of a reference run, row by row. */
module ReferenceJournal {
  import opened Options
  import opened Sides
  import opened Ledger
  import opened TradeTerms
  import opened ReferenceEngine

  /** The row does not close the position. */
  predicate QuietRow(p: Position, row: Row) {
    !Hits(p, row.candle) && !Ends(p.side, row.signals)
  }

  /** The row closes the position: at the stop if that was traded at, counted as held for one bar, and otherwise at the
      close. */
  ghost predicate LeftAtRow(t: Trade, p: Position, row: Row, cfg: Config) {
    if Hits(p, row.candle) then Settles(t, p, p.stopPrice, row.candle.timestamp, RiskExit, 1, cfg)
    else
      Ends(p.side, row.signals)
      && Settles(t, p, row.candle.close, row.candle.timestamp, LorentzExit, row.baseIndex - p.entryIndex, cfg)
  }

  ghost predicate NothingOn(row: Row, equity: real, cfg: Config) {
    NothingAtClose(row.signals, row.candle, row.atr, equity, cfg)
  }

  ghost predicate Enters(p: Position, row: Row, equity: real, cfg: Config) {
    p.entryIndex == row.baseIndex && OpenedAtClose(p, row.candle, row.signals, row.atr, equity, cfg)
  }

  /** A position with the row from which the account could open it, the row that did, and the row that closed it. */
  datatype Story = Story(position: Position, from: nat, row: nat, exit: nat)

  ghost predicate Idle(rows: seq<Row>, from: nat, to: nat, equity: real, cfg: Config)
    requires to <= |rows|
  {
    forall y :: from <= y < to ==> NothingOn(rows[y], equity, cfg)
  }

  ghost predicate Opens(s: Story, rows: seq<Row>, equity: real, cfg: Config) {
    && s.from <= s.row < |rows| && Idle(rows, s.from, s.row, equity, cfg)
    && Enters(s.position, rows[s.row], equity, cfg)
  }

  predicate HeldTo(s: Story, rows: seq<Row>, n: nat)
    requires n <= |rows|
  {
    forall y :: s.row < y < n ==> QuietRow(s.position, rows[y])
  }

  /** The trade is that of the position, closed by the first later row that could. */
  ghost predicate Tells(s: Story, t: Trade, rows: seq<Row>, equity: real, cfg: Config) {
    && s.row < s.exit < |rows| && Opens(s, rows, equity, cfg) && HeldTo(s, rows, s.exit)
    && LeftAtRow(t, s.position, rows[s.exit], cfg)
  }

  /** A stop lets the account open again on the same row; a signal does only if flips are allowed. */
  function Resumes(s: Story, t: Trade, cfg: Config): nat {
    if cfg.allowSameBarFlip || t.reason == RiskExit then s.exit else s.exit + 1
  }

  function ResumedAt(stories: seq<Story>, trades: seq<Trade>, k: nat, cfg: Config): nat
    requires k <= |stories| <= |trades|
  {
    if k == 0 then 0 else Resumes(stories[k - 1], trades[k - 1], cfg)
  }

  ghost predicate Told(stories: seq<Story>, a: Account, rows: seq<Row>, cfg: Config) {
    && |stories| == |a.trades| && |a.points| == |stories| + 1 && a.equity == a.points[|stories|]
    && forall k :: 0 <= k < |stories| ==> StoryFits(stories, k, a, rows, cfg)
  }

  ghost predicate StoryFits(stories: seq<Story>, k: nat, a: Account, rows: seq<Row>, cfg: Config)
    requires k < |stories| == |a.trades| && |a.points| == |stories| + 1
  {
    stories[k].from == ResumedAt(stories, a.trades, k, cfg) && Tells(stories[k], a.trades[k], rows, a.points[k], cfg)
  }

  /** After n rows: the trades are told, and the account is either flat, with nothing to open since, or holds a position
      that nothing could close. */
  ghost predicate Journal(stories: seq<Story>, a: Account, current: Option<Story>, rows: seq<Row>, n: nat, cfg: Config)
    requires n <= |rows|
  {
    && Told(stories, a, rows, cfg)
    && var from := ResumedAt(stories, a.trades, |stories|, cfg);
       from <= n &&
       if a.position.None? then Idle(rows, from, n, a.equity, cfg)
       else
         && current.Some? && current.value.position == a.position.value && current.value.row < n
         && current.value.from == from && Opens(current.value, rows, a.equity, cfg) && HeldTo(current.value, rows, n)
  }

  lemma OneMoreTold(stories: seq<Story>, s: Story, a: Account, b: Account, t: Trade, rows: seq<Row>, cfg: Config)
    requires Told(stories, a, rows, cfg) && Books(a, b, t)
    requires s.from == ResumedAt(stories, a.trades, |stories|, cfg) && Tells(s, t, rows, a.equity, cfg)
    ensures Told(stories + [s], b, rows, cfg)
  {
    var all := stories + [s];
    forall k | 0 <= k < |all| ensures StoryFits(all, k, b, rows, cfg) {
      if k < |stories| {
        assert StoryFits(stories, k, a, rows, cfg);
        assert all[k] == stories[k] && b.trades[k] == a.trades[k] && b.points[k] == a.points[k];
        assert ResumedAt(all, b.trades, k, cfg) == ResumedAt(stories, a.trades, k, cfg);
      } else {
        assert all[k] == s && b.trades[k] == t && b.points[k] == a.points[k];
        assert ResumedAt(all, b.trades, k, cfg) == ResumedAt(stories, a.trades, k, cfg);
      }
    }
  }

  lemma ToldIgnoresPosition(stories: seq<Story>, a: Account, p: Option<Position>, rows: seq<Row>, cfg: Config)
    requires Told(stories, a, rows, cfg)
    ensures Told(stories, a.(position := p), rows, cfg)
  {
    forall k | 0 <= k < |stories| ensures StoryFits(stories, k, a.(position := p), rows, cfg) {
      assert StoryFits(stories, k, a, rows, cfg);
    }
  }

  lemma EntryExactly(row: Row, equity: real, cfg: Config)
    ensures var p := Entry(row, equity, cfg);
            && (p.None? <==> NothingOn(row, equity, cfg))
            && (p.Some? ==> Enters(p.value, row, equity, cfg))
  {
    OpensExactly(Long, row.candle.close, row.atr, row.candle.timestamp, row.baseIndex, equity, cfg);
    OpensExactly(Short, row.candle.close, row.atr, row.candle.timestamp, row.baseIndex, equity, cfg);
  }

  /** What a row does to a position: keeps it exactly when the row is quiet, and otherwise books it. */
  lemma WatchedExactly(a: Account, row: Row, cfg: Config)
    requires a.position.Some?
    ensures var p, b := a.position.value, WatchSignal(WatchStop(a, row, cfg), row, cfg);
            if QuietRow(p, row) then b == a && WatchStop(a, row, cfg) == a
            else
              && b.trades != [] && Books(a, b, Last(b)) && LeftAtRow(Last(b), p, row, cfg)
              && (WatchStop(a, row, cfg).position.None? <==> Last(b).reason == RiskExit)
  {
    var p, c := a.position.value, row.candle;
    SameTests(p, c, row.signals);
    CloseBooks(a, c.timestamp, p.stopPrice, cfg, RiskExit, p.entryIndex);
    CloseBooks(a, c.timestamp, c.close, cfg, LorentzExit, row.baseIndex);
  }

  /** A flat account that may open on row n. */
  lemma FlatRow(stories: seq<Story>, a: Account, rows: seq<Row>, n: nat, cfg: Config)
    returns (current: Option<Story>)
    requires n < |rows| && a.position.None? && Journal(stories, a, None, rows, n, cfg)
    ensures Journal(stories, a.(position := Entry(rows[n], a.equity, cfg)), current, rows, n + 1, cfg)
  {
    var p := Entry(rows[n], a.equity, cfg);
    EntryExactly(rows[n], a.equity, cfg);
    ToldIgnoresPosition(stories, a, p, rows, cfg);
    current := None;
    if p.Some? {
      var s := Story(p.value, ResumedAt(stories, a.trades, |stories|, cfg), n, n);
      assert Opens(s, rows, a.equity, cfg);
      current := Some(s);
    }
  }

  /** An account that holds a position, on row n. */
  lemma HeldRow(stories: seq<Story>, a: Account, current: Story, rows: seq<Row>, n: nat, cfg: Config)
    returns (stories': seq<Story>, current': Option<Story>)
    requires n < |rows| && a.position.Some? && Journal(stories, a, Some(current), rows, n, cfg)
    ensures Journal(stories', ReferenceRow(a, rows[n], cfg), current', rows, n + 1, cfg)
  {
    var b := WatchSignal(WatchStop(a, rows[n], cfg), rows[n], cfg);
    WatchedExactly(a, rows[n], cfg);
    if QuietRow(current.position, rows[n]) {
      stories', current' := stories, Some(current);
    } else {
      var s := current.(exit := n);
      OneMoreTold(stories, s, a, b, Last(b), rows, cfg);
      stories', current' := stories + [s], None;
      assert ResumedAt(stories', b.trades, |stories'|, cfg) == Resumes(s, Last(b), cfg);
      if Resumes(s, Last(b), cfg) == n {
        current' := FlatRow(stories', b, rows, n, cfg);
      }
    }
  }

  ghost predicate Journaled(stories: seq<Story>, current: Option<Story>, rows: seq<Row>, n: nat, cfg: Config)
    requires n <= |rows|
  {
    Journal(stories, ReferenceRun(rows[..n], cfg), current, rows, n, cfg)
  }

  lemma JournalStep(stories: seq<Story>, current: Option<Story>, rows: seq<Row>, n: nat, cfg: Config)
    returns (stories': seq<Story>, current': Option<Story>)
    requires n < |rows| && Journaled(stories, current, rows, n, cfg)
    ensures Journaled(stories', current', rows, n + 1, cfg)
  {
    var a := ReferenceRun(rows[..n], cfg);
    assert rows[..n + 1][..n] == rows[..n];
    if a.position.None? {
      stories' := stories;
      current' := FlatRow(stories, a, rows, n, cfg);
    } else {
      stories', current' := HeldRow(stories, a, current.value, rows, n, cfg);
    }
  }

  lemma RunHasJournal(rows: seq<Row>, cfg: Config) returns (stories: seq<Story>, current: Option<Story>)
    ensures Journal(stories, ReferenceRun(rows, cfg), current, rows, |rows|, cfg)
  {
    stories, current := [], None;
    for n := 0 to |rows|
      invariant Journaled(stories, current, rows, n, cfg)
    {
      stories, current := JournalStep(stories, current, rows, n, cfg);
    }
    assert rows[..|rows|] == rows;
  }

  /** The trade that the end of the test books for a position still held: at the close of the last row. */
  ghost predicate ForcedOut(s: Story, t: Trade, rows: seq<Row>, baseLength: nat, equity: real, cfg: Config) {
    && Opens(s, rows, equity, cfg) && HeldTo(s, rows, |rows|)
    && var last := rows[|rows| - 1].candle;
       Settles(t, s.position, last.close, last.timestamp, EndOfTest, baseLength - 1 - rows[s.row].baseIndex, cfg)
  }

  ghost predicate Accounted(stories: seq<Story>, k: nat, r: Account, rows: seq<Row>, baseLength: nat, cfg: Config)
    requires k < |stories| == |r.trades| && |r.points| == |stories| + 1
  {
    && stories[k].from == ResumedAt(stories, r.trades, k, cfg)
    && if r.trades[k].reason == EndOfTest
       then k == |stories| - 1 && ForcedOut(stories[k], r.trades[k], rows, baseLength, r.points[k], cfg)
       else Tells(stories[k], r.trades[k], rows, r.points[k], cfg)
  }

  lemma ToldIsNotForced(s: Story, t: Trade, rows: seq<Row>, equity: real, cfg: Config)
    requires Tells(s, t, rows, equity, cfg)
    ensures t.reason != EndOfTest
  {
  }

  lemma ToldIsAccounted(stories: seq<Story>, a: Account, rows: seq<Row>, baseLength: nat, cfg: Config)
    requires Told(stories, a, rows, cfg)
    ensures forall k :: 0 <= k < |stories| ==> Accounted(stories, k, a, rows, baseLength, cfg)
  {
    forall k | 0 <= k < |stories| ensures Accounted(stories, k, a, rows, baseLength, cfg) {
      assert StoryFits(stories, k, a, rows, cfg);
      ToldIsNotForced(stories[k], a.trades[k], rows, a.points[k], cfg);
    }
  }

  lemma ForcedIsAccounted(stories: seq<Story>, s: Story, a: Account, b: Account, t: Trade, rows: seq<Row>,
      baseLength: nat, cfg: Config)
    requires Told(stories, a, rows, cfg) && Books(a, b, t) && t.reason == EndOfTest
    requires s.from == ResumedAt(stories, a.trades, |stories|, cfg)
    requires ForcedOut(s, t, rows, baseLength, a.equity, cfg)
    ensures var all := stories + [s];
            |all| == |b.trades| && |b.points| == |all| + 1
            && forall k :: 0 <= k < |all| ==> Accounted(all, k, b, rows, baseLength, cfg)
  {
    var all := stories + [s];
    forall k | 0 <= k < |all| ensures Accounted(all, k, b, rows, baseLength, cfg) {
      assert ResumedAt(all, b.trades, k, cfg) == ResumedAt(stories, a.trades, k, cfg);
      if k < |stories| {
        assert StoryFits(stories, k, a, rows, cfg);
        ToldIsNotForced(stories[k], a.trades[k], rows, a.points[k], cfg);
        assert all[k] == stories[k] && b.trades[k] == a.trades[k] && b.points[k] == a.points[k];
      } else {
        assert all[k] == s && b.trades[k] == t && b.points[k] == a.points[k];
      }
    }
  }

  /**
   * The whole reference report, trade by trade. Each trade was opened at the close of the first row on which the
   * account, being flat, could open anything, long before short, with the stop at the configured distance on the
   * losing side and the largest affordable size. It was closed by the first later row that traded at its stop, at the
   * stop, or ended its side, at the close. The next could open from the following row, and on the same row after a
   * stop or when flips are allowed. A position held to the end is closed at the last close; otherwise nothing could be
   * opened since.
   */
  lemma ReportHasJournal(rows: seq<Row>, baseLength: nat, cfg: Config) returns (stories: seq<Story>)
    ensures var r := ReferenceReport(rows, baseLength, cfg);
            && |stories| == |r.trades| && |r.points| == |stories| + 1
            && (forall k :: 0 <= k < |stories| ==> Accounted(stories, k, r, rows, baseLength, cfg))
            && ((stories != [] && r.trades[|stories| - 1].reason == EndOfTest)
                || Idle(rows, ResumedAt(stories, r.trades, |stories|, cfg), |rows|, r.equity, cfg))
  {
    var current;
    stories, current := RunHasJournal(rows, cfg);
    var a, r := ReferenceRun(rows, cfg), ReferenceReport(rows, baseLength, cfg);
    if a.position.Some? {
      var last, s := rows[|rows| - 1].candle, current.value;
      CloseBooks(a, last.timestamp, last.close, cfg, EndOfTest, baseLength - 1);
      ForcedIsAccounted(stories, s, a, r, Last(r), rows, baseLength, cfg);
      stories := stories + [s];
    } else {
      ToldIsAccounted(stories, a, rows, baseLength, cfg);
    }
  }

  /** On positive closes, with a positive stop distance, every trade that the stop closes is closed at a loss. */
  lemma StopExitsLose(rows: seq<Row>, baseLength: nat, cfg: Config, k: nat)
    requires forall i :: 0 <= i < |rows| ==> rows[i].candle.close > 0.0
    requires if cfg.risk.useFixedStop then cfg.risk.fixedStopPct > 0.0 else cfg.risk.minStopPct > 0.0
    requires k < |ReferenceReport(rows, baseLength, cfg).trades|
    requires ReferenceReport(rows, baseLength, cfg).trades[k].reason == RiskExit
    ensures ReferenceReport(rows, baseLength, cfg).trades[k].gross < 0.0
  {
    var r := ReferenceReport(rows, baseLength, cfg);
    var stories := ReportHasJournal(rows, baseLength, cfg);
    assert Accounted(stories, k, r, rows, baseLength, cfg);
    var s := stories[k];
    var p := s.position;
    StopIsProtective(p.side, p.entryPrice, p.stopPrice, rows[s.row].atr, cfg.risk);
    NegativeProduct(if p.side == Long then p.stopPrice - p.entryPrice else p.entryPrice - p.stopPrice, p.quantity);
  }
}
