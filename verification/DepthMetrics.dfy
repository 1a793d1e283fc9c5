/** What is read off a book: best prices, validity, top-of-book depth, imbalance, and the rolling
    depth history from which depletion is published. */
module DepthMetrics {
  import Sets
  import opened DepthBook

  const HISTORY_WINDOW_MS := 60_000
  const HISTORY_CAP := 512

  lemma {:induction false} HasBest(prices: set<real>, highFirst: bool)
    requires prices != {}
    ensures exists p :: p in prices && forall q :: q in prices ==> if highFirst then q <= p else p <= q
    decreases |prices|
  {
    var x := Sets.Member(prices);
    if prices == {x} {
      assert x in prices;
    } else {
      var rest := prices - {x};
      assert |rest| < |prices| && rest != {};
      HasBest(rest, highFirst);
      var b :| b in rest && forall q :: q in rest ==> if highFirst then q <= b else b <= q;
      var best := if highFirst == (x >= b) then x else b;
      assert best in prices;
      forall q | q in prices ensures if highFirst then q <= best else best <= q {
        assert q == x || q in rest;
      }
    }
  }

  /** The head of the side's sorted price list: highest bid, lowest ask. */
  function Best(side: Side, highFirst: bool): (p: real)
    requires side != map[]
    ensures p in side
    ensures forall q :: q in side ==> if highFirst then q <= p else p <= q
  {
    assert side.Keys == {} ==> side == map[];
    HasBest(side.Keys, highFirst);
    var p :| p in side.Keys && forall q :: q in side.Keys ==> if highFirst then q <= p else p <= q;
    p
  }

  /** The summed quantity of the first `count` levels of the sorted side. */
  function TopDepth(side: Side, count: nat, highFirst: bool): real
    decreases count
  {
    if count == 0 || side == map[] then 0.0
    else
      var p := Best(side, highFirst);
      side[p] + TopDepth(side - {p}, count - 1, highFirst)
  }

  lemma {:induction false} TopDepthPositive(side: Side, count: nat, highFirst: bool)
    requires Positive(side)
    ensures TopDepth(side, count, highFirst) >= 0.0
    ensures count > 0 && side != map[] ==> TopDepth(side, count, highFirst) > 0.0
    decreases count
  {
    if count > 0 && side != map[] {
      var p := Best(side, highFirst);
      TopDepthPositive(side - {p}, count - 1, highFirst);
    }
  }

  /** `_order_book_validity_issue` finds nothing. */
  predicate Valid(bids: Side, asks: Side, requiredLevels: int) {
    && bids != map[] && asks != map[]
    && Best(bids, true) < Best(asks, false)
    && |bids| >= requiredLevels && |asks| >= requiredLevels
  }

  datatype Depths = Depths(timeMs: int, bid5: real, ask5: real, bid10: real, ask10: real)

  function DepthsOf(bids: Side, asks: Side, timeMs: int): Depths {
    Depths(timeMs, TopDepth(bids, 5, true), TopDepth(asks, 5, false),
           TopDepth(bids, 10, true), TopDepth(asks, 10, false))
  }

  /** A bounded deque: appending to a full one drops from the left. */
  function PushBounded<T>(items: seq<T>, item: T, cap: nat): (r: seq<T>)
    ensures |items| <= cap ==> |r| <= cap
    ensures cap > 0 ==> r != [] && r[|r| - 1] == item
  {
    if cap == 0 then []
    else if |items| >= cap then items[|items| - cap + 1..] + [item]
    else items + [item]
  }

  function TrimBefore(history: seq<Depths>, cutoffMs: int): (r: seq<Depths>)
    ensures |r| <= |history|
    ensures history != [] && history[|history| - 1].timeMs >= cutoffMs ==>
              r != [] && r[|r| - 1] == history[|history| - 1]
    ensures forall d :: d in r ==> d in history
  {
    if history != [] && history[0].timeMs < cutoffMs then TrimBefore(history[1..], cutoffMs) else history
  }

  /** `_record_depth_history`. */
  function Recorded(history: seq<Depths>, bids: Side, asks: Side, timeMs: int): (r: seq<Depths>)
    ensures |history| <= HISTORY_CAP ==> |r| <= HISTORY_CAP
    ensures bids != map[] && asks != map[] ==>
              r != [] && r[|r| - 1] == DepthsOf(bids, asks, timeMs)
  {
    if bids == map[] || asks == map[] then history
    else
      var entry := DepthsOf(bids, asks, timeMs);
      var extended :=
        if history != [] && history[|history| - 1].timeMs == timeMs
        then history[..|history| - 1] + [entry]
        else PushBounded(history, entry, HISTORY_CAP);
      TrimBefore(extended, timeMs - HISTORY_WINDOW_MS)
  }

  function Maximum(values: seq<real>, default: real): (m: real)
    ensures values == [] ==> m == default
    ensures values != [] ==> m in values
    ensures forall v :: v in values ==> v <= m
  {
    if values == [] then default
    else if |values| == 1 then values[0]
    else
      var rest := Maximum(values[1..], default);
      assert forall v :: v in values ==> v == values[0] || v in values[1..];
      if values[0] >= rest then values[0] else rest
  }

  function Depletion(current: real, recentMax: real): real {
    if recentMax <= 0.0 then 1.0 else current / recentMax
  }

  function Imbalance(bidSum: real, askSum: real): real {
    if bidSum + askSum > 0.0 then (bidSum - askSum) / (bidSum + askSum) else 0.0
  }

  lemma QuotientInRange(a: real, b: real)
    requires 0.0 < a <= b
    ensures 0.0 < a / b <= 1.0
  {
    var q := a / b;
    assert q * b == a;
    assert q > 1.0 ==> q * b > b;
  }

  lemma ImbalanceInRange(bidSum: real, askSum: real)
    requires bidSum >= 0.0 && askSum >= 0.0
    ensures -1.0 <= Imbalance(bidSum, askSum) <= 1.0
  {
    var total, q := bidSum + askSum, Imbalance(bidSum, askSum);
    if total > 0.0 {
      assert q * total == bidSum - askSum;
      assert q > 1.0 ==> q * total > total;
      assert q < -1.0 ==> q * total < -total;
    }
  }

  /** Depletion never reads above one or down to zero while the history's last entry mirrors the
      book, for then the maximum it divides by is at least the current depth. */
  lemma DepletionInRange(current: real, history: seq<real>)
    requires current > 0.0 && history != [] && history[|history| - 1] == current
    ensures 0.0 < Depletion(current, Maximum(history, current)) <= 1.0
  {
    assert history[|history| - 1] in history;
    QuotientInRange(current, Maximum(history, current));
  }
}
