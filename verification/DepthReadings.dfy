/** What the published numbers mean: depths are sums over the best levels, imbalances say which side is deeper,
    depletions compare with the last minute's deepest book, and that minute is made of the server's own books. */
module DepthReadings {
  import opened Options
  import opened DepthBook
  import opened DepthMetrics
  import opened DepthSync
  import opened DepthRecovery

  // ---------------------------------------------------------------- depths

  predicate Better(p: real, q: real, highFirst: bool) {
    if highFirst then p > q else p < q
  }

  /** The n best prices of a side, best first; all of them when there are fewer. */
  ghost predicate IsLadder(prices: seq<real>, side: Side, n: nat, highFirst: bool) {
    && |prices| == (if |side| < n then |side| else n)
    && (forall i :: 0 <= i < |prices| ==> prices[i] in side)
    && (forall i, j :: 0 <= i < j < |prices| ==> Better(prices[i], prices[j], highFirst))
    && (forall i, q :: 0 <= i < |prices| && q in side && q !in prices ==> Better(prices[i], q, highFirst))
  }

  function Resting(side: Side, prices: seq<real>): real {
    if prices == [] then 0.0 else Qty(side, prices[0]) + Resting(side, prices[1..])
  }

  lemma {:induction false} RestingElsewhere(side: Side, prices: seq<real>, p: real)
    requires p !in prices
    ensures Resting(side - {p}, prices) == Resting(side, prices)
  {
    if prices != [] {
      assert prices[0] != p;
      RestingElsewhere(side, prices[1..], p);
    }
  }

  lemma RestOfLadder(prices: seq<real>, side: Side, n: nat, highFirst: bool)
    requires n > 0 && prices != [] && IsLadder(prices, side, n, highFirst)
    ensures prices[0] !in prices[1..] && IsLadder(prices[1..], side - {prices[0]}, n - 1, highFirst)
  {
    var p, rest := prices[0], side - {prices[0]};
    assert side.Keys == rest.Keys + {p} && |side.Keys| == |side| && |rest.Keys| == |rest|;
    forall q | q in rest && q !in prices[1..] ensures q !in prices {
    }
  }

  lemma LadderStartsBest(prices: seq<real>, side: Side, n: nat, highFirst: bool)
    requires prices != [] && IsLadder(prices, side, n, highFirst)
    ensures side != map[] && Best(side, highFirst) == prices[0]
  {
    assert prices[0] in side;
    var b := Best(side, highFirst);
    if b in prices {
      var i :| 0 <= i < |prices| && prices[i] == b;
    }
  }

  lemma NothingRests(prices: seq<real>, side: Side, n: nat, highFirst: bool)
    requires prices == [] && IsLadder(prices, side, n, highFirst)
    ensures TopDepth(side, n, highFirst) == 0.0
  {
    if n > 0 && side != map[] {
      NotEmpty(side);
    }
  }

  lemma DepthOfFirst(prices: seq<real>, side: Side, n: nat, highFirst: bool)
    requires n > 0 && prices != [] && IsLadder(prices, side, n, highFirst)
    ensures TopDepth(side, n, highFirst)
            == Qty(side, prices[0]) + TopDepth(side - {prices[0]}, n - 1, highFirst)
  {
    LadderStartsBest(prices, side, n, highFirst);
  }

  /** The depth of n levels is what rests at the n best prices. */
  lemma {:induction false} TopDepthIsResting(prices: seq<real>, side: Side, n: nat, highFirst: bool)
    requires IsLadder(prices, side, n, highFirst)
    ensures TopDepth(side, n, highFirst) == Resting(side, prices)
    decreases n
  {
    if prices == [] {
      NothingRests(prices, side, n, highFirst);
    } else {
      var p, rest := prices[0], prices[1..];
      RestOfLadder(prices, side, n, highFirst);
      DepthOfFirst(prices, side, n, highFirst);
      TopDepthIsResting(rest, side - {p}, n - 1, highFirst);
      RestingElsewhere(side, rest, p);
    }
  }

  lemma LadderGrows(rest: seq<real>, side: Side, n: nat, highFirst: bool, p: real)
    requires n > 0 && p in side && IsLadder(rest, side - {p}, n - 1, highFirst)
    requires forall q :: q in side && q != p ==> Better(p, q, highFirst)
    ensures IsLadder([p] + rest, side, n, highFirst)
  {
    var others, prices := side - {p}, [p] + rest;
    assert side.Keys == others.Keys + {p} && |side.Keys| == |side| && |others.Keys| == |others|;
    assert forall i :: 0 < i < |prices| ==> prices[i] == rest[i - 1];
    forall i, q | 0 <= i < |prices| && q in side && q !in prices ensures Better(prices[i], q, highFirst) {
      assert prices[0] == p && q in others && q !in rest;
    }
  }

  lemma {:induction false} HasLadder(side: Side, n: nat, highFirst: bool) returns (prices: seq<real>)
    ensures IsLadder(prices, side, n, highFirst)
    decreases n
  {
    prices := [];
    if n > 0 && side != map[] {
      var rest := HasLadder(side - {Best(side, highFirst)}, n - 1, highFirst);
      LadderGrows(rest, side, n, highFirst, Best(side, highFirst));
      prices := [Best(side, highFirst)] + rest;
    }
  }

  // ---------------------------------------------------------------- imbalance and depletion

  /** q says by how much of the whole the first part outweighs the second. */
  ghost predicate Balances(q: real, first: real, second: real) {
    first > 0.0 && second > 0.0 && q * (first + second) == first - second
  }

  lemma ImbalanceBalances(bidSum: real, askSum: real)
    requires bidSum > 0.0 && askSum > 0.0
    ensures Balances(Imbalance(bidSum, askSum), bidSum, askSum)
  {
  }

  /** q says which share of the largest value the present one is. */
  ghost predicate SharesOfPeak(q: real, present: real, values: seq<real>) {
    exists k: nat :: IsPeak(values, k) && IsShare(q, present, values[k])
  }

  ghost predicate IsPeak(values: seq<real>, k: nat) {
    k < |values| && forall j :: 0 <= j < |values| ==> values[j] <= values[k]
  }

  predicate IsShare(q: real, part: real, whole: real) {
    part <= whole && q * whole == part
  }

  lemma DepletionShares(present: real, values: seq<real>)
    requires present > 0.0 && present in values
    ensures SharesOfPeak(DepletionOf(present, values), present, values)
  {
    var k := PeakAt(values, present);
    var j :| 0 <= j < |values| && values[j] == present;
    DepletionUndoes(present, values[k]);
    assert IsShare(DepletionOf(present, values), present, values[k]);
  }

  lemma MaximumBounds(values: seq<real>, default: real, v: real)
    requires v in values
    ensures v <= Maximum(values, default)
  {
  }

  lemma PeakAt(values: seq<real>, default: real) returns (k: nat)
    requires values != []
    ensures IsPeak(values, k) && values[k] == Maximum(values, default)
  {
    k :| k < |values| && values[k] == Maximum(values, default);
    forall j | 0 <= j < |values| ensures values[j] <= values[k] {
      MaximumBounds(values, default, values[j]);
    }
  }

  lemma DepletionUndoes(present: real, peak: real)
    requires peak > 0.0
    ensures Depletion(present, peak) * peak == present
  {
  }

  function ImbalanceOver(p: Published, n: nat): real {
    if n == 1 then p.imbalance1 else if n == 5 then p.imbalance5 else p.imbalance10
  }

  /** The published depletions of the first n levels, five or ten, are shares of the deepest readings. */
  ghost predicate DepletionsShare(p: Published, s: BookState, n: nat, bidDepth: real, askDepth: real) {
    && (n == 5 ==> SharesOfPeak(p.bid5Depletion, bidDepth, Column(s.history, Bid5))
                   && SharesOfPeak(p.ask5Depletion, askDepth, Column(s.history, Ask5)))
    && (n == 10 ==> SharesOfPeak(p.bid10Depletion, bidDepth, Column(s.history, Bid10))
                    && SharesOfPeak(p.ask10Depletion, askDepth, Column(s.history, Ask10)))
  }

  /** The published numbers of a book, for its first, first five or first ten levels. */
  ghost predicate Reads(p: Published, s: BookState, bids: seq<real>, asks: seq<real>, n: nat) {
    && bids != [] && asks != [] && p.bestBid == bids[0] && p.bestAsk == asks[0]
    && p.lastUpdateId == s.lastUpdateId
    && Balances(ImbalanceOver(p, n), Resting(s.bids, bids), Resting(s.asks, asks))
    && DepletionsShare(p, s, n, Resting(s.bids, bids), Resting(s.asks, asks))
  }

  /** What is published of a mirrored book: the best prices, how much deeper the bids are than the asks among the first,
      the first five and the first ten levels, and for each side which share of its deepest reading it still has. */
  lemma PublishedMeans(cfg: Config, inputs: seq<Input>, bids: seq<real>, asks: seq<real>, n: nat)
    requires PossibleRun(inputs) && Run(cfg, inputs).synced && n in {1, 5, 10}
    requires IsLadder(bids, Run(cfg, inputs).bids, n, true) && IsLadder(asks, Run(cfg, inputs).asks, n, false)
    ensures var s := Run(cfg, inputs);
            Publish(cfg, s).Some? && Reads(Publish(cfg, s).value, s, bids, asks, n)
  {
    MirrorIsPositive(cfg, inputs);
    BookReads(cfg, Run(cfg, inputs), bids, asks, n);
  }

  lemma BookReads(cfg: Config, s: BookState, bids: seq<real>, asks: seq<real>, n: nat)
    requires s.synced && Valid(s.bids, s.asks, cfg.requiredLevels) && Positive(s.bids) && Positive(s.asks)
    requires s.history != []
    requires s.history[|s.history| - 1] == DepthsOf(s.bids, s.asks, s.history[|s.history| - 1].timeMs)
    requires IsLadder(bids, s.bids, n, true) && IsLadder(asks, s.asks, n, false) && n in {1, 5, 10}
    ensures Publish(cfg, s).Some? && Reads(Publish(cfg, s).value, s, bids, asks, n)
  {
    SideIsRead(s.bids, bids, n, true);
    SideIsRead(s.asks, asks, n, false);
    BookIsPublished(cfg, s, n);
    ImbalanceBalances(Resting(s.bids, bids), Resting(s.asks, asks));
    if n != 1 {
      DepletionsAre(cfg, s, n);
    }
  }

  lemma BookIsPublished(cfg: Config, s: BookState, n: nat)
    requires s.synced && Valid(s.bids, s.asks, cfg.requiredLevels) && n in {1, 5, 10}
    ensures Publish(cfg, s).Some?
    ensures var p := Publish(cfg, s).value;
            && p.bestBid == Best(s.bids, true) && p.bestAsk == Best(s.asks, false) && p.lastUpdateId == s.lastUpdateId
            && ImbalanceOver(p, n) == Imbalance(TopDepth(s.bids, n, true), TopDepth(s.asks, n, false))
  {
  }

  /** The depletions as they are published, with the readings they start from. */
  ghost predicate Depletes(p: Published, s: BookState, bid5: real, ask5: real, bid10: real, ask10: real) {
    && p.bid5Depletion == DepletionOf(bid5, Column(s.history, Bid5))
    && p.ask5Depletion == DepletionOf(ask5, Column(s.history, Ask5))
    && p.bid10Depletion == DepletionOf(bid10, Column(s.history, Bid10))
    && p.ask10Depletion == DepletionOf(ask10, Column(s.history, Ask10))
  }

  lemma PublishDepletes(cfg: Config, s: BookState)
    requires Publish(cfg, s).Some?
    ensures Depletes(Publish(cfg, s).value, s, TopDepth(s.bids, 5, true), TopDepth(s.asks, 5, false),
                     TopDepth(s.bids, 10, true), TopDepth(s.asks, 10, false))
  {
  }

  lemma FiveShare(p: Published, s: BookState, d: Depths)
    requires s.history != [] && s.history[|s.history| - 1] == d && d.bid5 > 0.0 && d.ask5 > 0.0
    requires Depletes(p, s, d.bid5, d.ask5, d.bid10, d.ask10)
    ensures DepletionsShare(p, s, 5, d.bid5, d.ask5)
  {
    LastShares(s.history, Bid5, d.bid5);
    LastShares(s.history, Ask5, d.ask5);
  }

  lemma TenShare(p: Published, s: BookState, d: Depths)
    requires s.history != [] && s.history[|s.history| - 1] == d && d.bid10 > 0.0 && d.ask10 > 0.0
    requires Depletes(p, s, d.bid5, d.ask5, d.bid10, d.ask10)
    ensures DepletionsShare(p, s, 10, d.bid10, d.ask10)
  {
    LastShares(s.history, Bid10, d.bid10);
    LastShares(s.history, Ask10, d.ask10);
  }

  lemma DepletionsAre(cfg: Config, s: BookState, n: nat)
    requires Publish(cfg, s).Some? && (n == 5 || n == 10) && s.history != []
    requires s.history[|s.history| - 1] == DepthsOf(s.bids, s.asks, s.history[|s.history| - 1].timeMs)
    requires TopDepth(s.bids, n, true) > 0.0 && TopDepth(s.asks, n, false) > 0.0
    ensures DepletionsShare(Publish(cfg, s).value, s, n, TopDepth(s.bids, n, true), TopDepth(s.asks, n, false))
  {
    PublishDepletes(cfg, s);
    if n == 5 {
      FiveShare(Publish(cfg, s).value, s, s.history[|s.history| - 1]);
    } else {
      TenShare(Publish(cfg, s).value, s, s.history[|s.history| - 1]);
    }
  }

  lemma LastShares(history: seq<Depths>, pick: Depths -> real, present: real)
    requires history != [] && pick(history[|history| - 1]) == present > 0.0
    ensures SharesOfPeak(DepletionOf(present, Column(history, pick)), present, Column(history, pick))
  {
    LastIsListed(history, pick);
    DepletionShares(present, Column(history, pick));
  }

  lemma LastIsListed(history: seq<Depths>, pick: Depths -> real)
    requires history != []
    ensures pick(history[|history| - 1]) in Column(history, pick)
  {
    assert Column(history, pick)[|history| - 1] == pick(history[|history| - 1]);
  }

  lemma MirrorIsPositive(cfg: Config, inputs: seq<Input>)
    requires PossibleRun(inputs) && Run(cfg, inputs).synced
    ensures var s := Run(cfg, inputs);
            && Positive(s.bids) && Positive(s.asks) && Valid(s.bids, s.asks, cfg.requiredLevels) && s.history != []
            && s.history[|s.history| - 1] == DepthsOf(s.bids, s.asks, s.history[|s.history| - 1].timeMs)
  {
    RunKeeps(cfg, inputs);
    var log, s := LogOf(inputs), Run(cfg, inputs);
    ServerIsPositive(log.bids, s.lastUpdateId.value);
    ServerIsPositive(log.asks, s.lastUpdateId.value);
  }

  lemma NotEmpty(side: Side)
    requires side != map[]
    ensures |side| > 0
  {
    assert side.Keys != {};
  }

  lemma SideIsRead(side: Side, prices: seq<real>, n: nat, highFirst: bool)
    requires Positive(side) && side != map[] && n > 0 && IsLadder(prices, side, n, highFirst)
    ensures prices != [] && Best(side, highFirst) == prices[0]
    ensures TopDepth(side, n, highFirst) == Resting(side, prices) && Resting(side, prices) > 0.0
  {
    NotEmpty(side);
    LadderStartsBest(prices, side, n, highFirst);
    TopDepthIsResting(prices, side, n, highFirst);
    TopDepthPositive(side, n, highFirst);
  }

  // ---------------------------------------------------------------- the last minute

  /** The depths of a publishable book the server had. */
  ghost predicate Reading(cfg: Config, log: Log, d: Depths) {
    exists id: nat :: ServerPublishable(cfg, log, id) && ReadAt(log, id, d)
  }

  ghost predicate ReadAt(log: Log, id: nat, d: Depths)
    requires id <= |log.bids| && id <= |log.asks|
  {
    d == DepthsOf(SideAt(log.bids, id), SideAt(log.asks, id), d.timeMs)
  }

  ghost predicate AllReadings(cfg: Config, log: Log, history: seq<Depths>) {
    forall d :: d in history ==> Reading(cfg, log, d)
  }

  ghost predicate Spread(history: seq<Depths>) {
    forall i :: 0 < i < |history| ==> history[i - 1].timeMs != history[i].timeMs
  }

  /** One reading for each time, and none from more than a minute before the last. */
  ghost predicate LastMinute(history: seq<Depths>) {
    && Spread(history)
    && (history != [] ==> history[|history| - 1].timeMs - history[0].timeMs <= 60_000)
  }

  /** Trimming drops readings from the front, as long as they are too old. */
  lemma {:induction false} TrimDropsOld(history: seq<Depths>, cutoffMs: int) returns (k: nat)
    ensures k <= |history| && TrimBefore(history, cutoffMs) == history[k..]
    ensures forall i :: 0 <= i < k ==> history[i].timeMs < cutoffMs
    ensures k < |history| ==> history[k].timeMs >= cutoffMs
    decreases |history|
  {
    if history != [] && history[0].timeMs < cutoffMs {
      var j := TrimDropsOld(history[1..], cutoffMs);
      k := j + 1;
      assert history[1..][j..] == history[k..];
    } else {
      k := 0;
    }
  }

  /** The history before trimming: the reading replaces one of the same time, or follows the others. */
  function Extended(history: seq<Depths>, d: Depths): seq<Depths> {
    if history != [] && history[|history| - 1].timeMs == d.timeMs then history[..|history| - 1] + [d]
    else PushBounded(history, d, HISTORY_CAP)
  }

  lemma ExtendedShape(history: seq<Depths>, d: Depths)
    requires Spread(history)
    ensures var r := Extended(history, d);
            && r != [] && r[|r| - 1] == d && Spread(r)
            && forall x :: x in r ==> x in history || x == d
  {
  }

  lemma RecordedShape(history: seq<Depths>, bids: Side, asks: Side, timeMs: int)
    requires Spread(history) && bids != map[] && asks != map[]
    ensures var r, d := Recorded(history, bids, asks, timeMs), DepthsOf(bids, asks, timeMs);
            LastMinute(r) && forall x :: x in r ==> x in history || x == d
  {
    var all := Extended(history, DepthsOf(bids, asks, timeMs));
    ExtendedShape(history, DepthsOf(bids, asks, timeMs));
    var k := TrimDropsOld(all, timeMs - 60_000);
    SuffixOf(all, k);
  }

  lemma SuffixOf(all: seq<Depths>, k: nat)
    requires k <= |all| && Spread(all)
    ensures Spread(all[k..]) && forall x :: x in all[k..] ==> x in all
  {
  }

  lemma RecordedKeeps(cfg: Config, log: Log, history: seq<Depths>, id: nat, bids: Side, asks: Side, timeMs: int)
    requires AllReadings(cfg, log, history) && LastMinute(history) && ServerPublishable(cfg, log, id)
    requires bids == SideAt(log.bids, id) && asks == SideAt(log.asks, id)
    ensures var r := Recorded(history, bids, asks, timeMs);
            AllReadings(cfg, log, r) && LastMinute(r)
  {
    assert ReadAt(log, id, DepthsOf(bids, asks, timeMs));
    RecordedShape(history, bids, asks, timeMs);
  }

  lemma ReadingStays(cfg: Config, log: Log, more: Log, d: Depths)
    requires log.bids <= more.bids && log.asks <= more.asks && Reading(cfg, log, d)
    ensures Reading(cfg, more, d)
  {
    var id: nat :| ServerPublishable(cfg, log, id) && ReadAt(log, id, d);
    LogPrefixSameSide(log.bids, more.bids, id);
    LogPrefixSameSide(log.asks, more.asks, id);
    assert ServerPublishable(cfg, more, id) && ReadAt(more, id, d);
  }

  ghost predicate Kept(cfg: Config, log: Log, s: BookState) {
    AllReadings(cfg, log, s.history) && LastMinute(s.history)
  }

  lemma ApplyKeepsReadings(cfg: Config, log: Log, s: BookState, e: DepthEvent, backoff: bool)
    requires Inv(cfg, log, s) && s.synced && GenuineEvent(log, e) && Kept(cfg, log, s)
    ensures Kept(cfg, log, Apply(cfg, s, e, backoff).0)
  {
    var (after, outcome) := Apply(cfg, s, e, backoff);
    ApplyKeeps(cfg, log, s, e, backoff);
    if outcome.Applied? {
      ValidIsPublishable(after.bids, after.asks, cfg.requiredLevels);
      RecordedKeeps(cfg, log, s.history, e.last, after.bids, after.asks, e.timeMs);
    }
  }

  lemma {:induction false} ReplayKeepsReadings(cfg: Config, log: Log, s: BookState, events: seq<DepthEvent>,
      backoff: bool)
    requires Inv(cfg, log, s) && s.synced && AllGenuine(log, events) && Kept(cfg, log, s)
    ensures Kept(cfg, log, Replay(cfg, s, events, backoff))
    decreases |events|
  {
    if events != [] {
      var (after, outcome) := Apply(cfg, s, events[0], backoff);
      ApplyKeeps(cfg, log, s, events[0], backoff);
      ApplyKeepsReadings(cfg, log, s, events[0], backoff);
      if !Raises(outcome) {
        ReplayKeepsReadings(cfg, log, after, events[1..], backoff);
      }
    }
  }

  lemma BufferKeepsReadings(cfg: Config, log: Log, s: BookState, id: nat, backoff: bool)
    requires Inv(cfg, log, s) && s.synced && Kept(cfg, log, s)
    ensures Kept(cfg, log, ReplayBuffer(cfg, s, id, backoff))
  {
    BufferIsGenuine(cfg, log, s);
    ToReplayKeeps(log, s.buffered, id);
    ReplayKeepsReadings(cfg, log, s.(buffered := []), ToReplay(s.buffered, id), backoff);
  }

  lemma BootstrapKeepsReadings(cfg: Config, log: Log, s: BookState, snap: Snapshot, nowMs: int, backoff: bool)
    requires Inv(cfg, log, s) && GenuineSnapshot(log, snap) && Kept(cfg, log, s)
    ensures Kept(cfg, log, Bootstrap(cfg, s, snap, nowMs, backoff))
  {
    var s1 := Installed(s, snap);
    if Valid(s1.bids, s1.asks, cfg.requiredLevels) {
      InstallMirrors(cfg, log, s, snap, nowMs);
      InstalledIsServer(cfg, log, s, snap);
      RecordedKeeps(cfg, log, s.history, snap.lastUpdateId, s1.bids, s1.asks, nowMs);
      BufferKeepsReadings(cfg, log, Measured(s1, nowMs), snap.lastUpdateId, backoff);
    }
  }

  lemma StepKeepsReadings(cfg: Config, log: Log, s: BookState, input: Input)
    requires Inv(cfg, log, s) && Possible(log, input) && Kept(cfg, log, s)
    ensures Kept(cfg, log, Step(cfg, s, input))
  {
    match input
    case Message(e, backoff) =>
      if s.synced { ApplyKeepsReadings(cfg, log, s, e, backoff); }
    case Response(snap, nowMs, backoff) => BootstrapKeepsReadings(cfg, log, s, snap, nowMs, backoff);
    case _ =>
  }

  /** The history that depletions compare with is, in every reachable state, made of readings of publishable books the
      server had, one for each time, over the last minute. */
  lemma {:induction false} HistoryIsServers(cfg: Config, inputs: seq<Input>)
    requires PossibleRun(inputs)
    ensures AllReadings(cfg, LogOf(inputs), Run(cfg, inputs).history) && LastMinute(Run(cfg, inputs).history)
  {
    if inputs != [] {
      var before := inputs[..|inputs| - 1];
      var s, log := Run(cfg, before), LogOf(before);
      HistoryIsServers(cfg, before);
      RunKeeps(cfg, before);
      StepKeepsReadings(cfg, log, s, inputs[|inputs| - 1]);
      var after := Run(cfg, inputs);
      forall d | d in after.history ensures Reading(cfg, LogOf(inputs), d) {
        ReadingStays(cfg, log, LogOf(inputs), d);
      }
    }
  }

  /** With the clock moving on and the history not full, recording drops exactly what is more than a minute old. */
  lemma RecordedExactly(history: seq<Depths>, bids: Side, asks: Side, timeMs: int)
    requires bids != map[] && asks != map[] && |history| < HISTORY_CAP
    requires Increasing(history + [DepthsOf(bids, asks, timeMs)])
    ensures forall d :: d in Recorded(history, bids, asks, timeMs)
                        <==> d == DepthsOf(bids, asks, timeMs) || (d in history && timeMs - d.timeMs <= 60_000)
  {
    RecentAreKept(history, DepthsOf(bids, asks, timeMs), timeMs - 60_000);
  }

  lemma RecentAreKept(history: seq<Depths>, entry: Depths, cutoffMs: int)
    requires |history| < HISTORY_CAP && Increasing(history + [entry]) && entry.timeMs >= cutoffMs
    ensures forall d :: d in TrimBefore(Extended(history, entry), cutoffMs)
                        <==> d == entry || (d in history && d.timeMs >= cutoffMs)
  {
    LaterIsAppended(history, entry);
    var k := TrimDropsOld(history + [entry], cutoffMs);
    TrimmedExactly(history + [entry], k, cutoffMs);
  }

  lemma LaterIsAppended(history: seq<Depths>, entry: Depths)
    requires |history| < HISTORY_CAP && Increasing(history + [entry])
    ensures Extended(history, entry) == history + [entry]
    ensures forall d :: d in history + [entry] <==> d in history || d == entry
  {
    var all := history + [entry];
    if history != [] {
      assert all[|history| - 1].timeMs < all[|history|].timeMs;
    }
  }

  ghost predicate Increasing(history: seq<Depths>) {
    forall i, j :: 0 <= i < j < |history| ==> history[i].timeMs < history[j].timeMs
  }

  lemma TrimmedExactly(all: seq<Depths>, k: nat, cutoffMs: int)
    requires Increasing(all) && k <= |all|
    requires forall i :: 0 <= i < k ==> all[i].timeMs < cutoffMs
    requires k < |all| ==> all[k].timeMs >= cutoffMs
    ensures forall d :: d in all[k..] <==> d in all && d.timeMs >= cutoffMs
  {
    forall d | d in all && d.timeMs >= cutoffMs ensures d in all[k..] {
      var i :| 0 <= i < |all| && all[i] == d;
      assert all[k..][i - k] == d;
    }
    forall d | d in all[k..] ensures d in all && d.timeMs >= cutoffMs {
      var i :| 0 <= i < |all[k..]| && all[k..][i] == d;
      assert all[k + i] == d;
    }
  }
}
