/** The adapter's mutable order-book record and its handlers, each proved to do to the fields what
    the synchroniser's step functions say. */
module LocalOrderBook {
  import opened Options
  import opened DepthBook
  import opened DepthMetrics
  import opened DepthSync

  class OrderBook {
    const cfg: Config
    var bids: Side
    var asks: Side
    var lastUpdateId: Option<nat>
    var lastEventU: Option<nat>
    var synced: bool
    var syncState: SyncState
    var buffered: seq<DepthEvent>
    var history: seq<Depths>

    function View(): BookState
      reads this
    {
      BookState(bids, asks, lastUpdateId, lastEventU, synced, syncState, buffered, history)
    }

    constructor (cfg: Config)
      ensures this.cfg == cfg && View() == INITIAL
    {
      this.cfg := cfg;
      bids, asks := map[], map[];
      lastUpdateId, lastEventU := None, None;
      synced, syncState := false, Cold;
      buffered, history := [], [];
    }

    static method ApplyDepthSide(side: Side, updates: seq<Level>) returns (after: Side)
      ensures after == ApplySide(side, updates)
    {
      after := side;
      for i := 0 to |updates|
        invariant after == ApplySide(side, updates[..i])
      {
        assert updates[..i + 1][..i] == updates[..i];
        if updates[i].qty == 0.0 {
          after := after - {updates[i].price};
        } else {
          after := after[updates[i].price := updates[i].qty];
        }
      }
      assert updates[..|updates|] == updates;
    }

    method RecordDepthHistory(timeMs: int)
      modifies this`history
      ensures history == Recorded(old(history), bids, asks, timeMs)
    {
      if bids == map[] || asks == map[] {
        return;
      }
      var entry := DepthsOf(bids, asks, timeMs);
      if history != [] && history[|history| - 1].timeMs == timeMs {
        history := history[..|history| - 1] + [entry];
      } else {
        history := PushBounded(history, entry, HISTORY_CAP);
      }
      var cutoff := timeMs - HISTORY_WINDOW_MS;
      ghost var extended := history;
      while history != [] && history[0].timeMs < cutoff
        invariant TrimBefore(history, cutoff) == TrimBefore(extended, cutoff)
        decreases |history|
      {
        history := history[1..];
      }
    }

    method BufferDepthEvent(e: DepthEvent)
      modifies this`syncState, this`buffered
      ensures View() == Buffer(cfg, old(View()), e)
    {
      if syncState == Cold {
        syncState := Buffering;
      }
      buffered := PushBounded(buffered, e, cfg.maxBuffer);
    }

    method ApplyDepthEvent(e: DepthEvent, backoff: bool) returns (outcome: Outcome)
      modifies this
      ensures (View(), outcome) == Apply(cfg, old(View()), e, backoff)
    {
      if lastUpdateId.None? {
        return SnapshotMissing;
      }
      if e.last < lastUpdateId.value {
        return Dropped;
      }
      var firstAfterSnapshot := lastEventU == lastUpdateId;
      if firstAfterSnapshot && !Aligns(e, lastUpdateId.value) {
        return Misaligned;
      }
      if lastEventU.Some? && !firstAfterSnapshot {
        if e.previous != 0 && e.previous != lastEventU.value {
          return Gap;
        }
      }
      bids := ApplyDepthSide(bids, e.bids);
      asks := ApplyDepthSide(asks, e.asks);
      if !Valid(bids, asks, cfg.requiredLevels) {
        synced, syncState := false, Rescheduled(backoff);
        return InvalidBook;
      }
      lastUpdateId := Some(e.last);
      lastEventU := Some(e.last);
      synced, syncState := true, Synced;
      RecordDepthHistory(e.timeMs);
      return Applied;
    }

    method HandleDepthMessage(e: DepthEvent, backoff: bool)
      modifies this
      ensures View() == HandleMessage(cfg, old(View()), e, backoff)
    {
      if !synced || lastUpdateId.None? {
        BufferDepthEvent(e);
        return;
      }
      var outcome := ApplyDepthEvent(e, backoff);
      if Raises(outcome) {
        synced, syncState := false, ResyncPending;
        buffered := [];
        BufferDepthEvent(e);
        syncState := Rescheduled(backoff);
      }
    }

    /** Replays events one by one, stopping at the first that raises. */
    method ReplayEvents(events: seq<DepthEvent>, backoff: bool)
      modifies this
      ensures View() == Replay(cfg, old(View()), events, backoff)
    {
      var i := 0;
      while i < |events|
        invariant 0 <= i <= |events|
        invariant Replay(cfg, View(), events[i..], backoff) == Replay(cfg, old(View()), events, backoff)
      {
        assert events[i..][1..] == events[i + 1..];
        var outcome := ApplyDepthEvent(events[i], backoff);
        if Raises(outcome) {
          return;
        }
        i := i + 1;
      }
    }

    method ReplayDepthBuffer(id: nat, backoff: bool)
      modifies this
      ensures View() == ReplayBuffer(cfg, old(View()), id, backoff)
    {
      var replay := Reaching(buffered, id);
      if replay == [] {
        buffered := [];
        return;
      }
      var first := FirstAligned(replay, id);
      if first == |replay| {
        synced, syncState := false, ResyncPending;
        buffered := replay;
        return;
      }
      buffered := [];
      ReplayEvents(replay[first..], backoff);
    }

    /** The snapshot response: install it, then replay what was buffered. */
    method BootstrapOrderBook(snap: Snapshot, nowMs: int, backoff: bool)
      modifies this
      ensures View() == Bootstrap(cfg, old(View()), snap, nowMs, backoff)
    {
      bids := SideOfSnapshot(snap.bids);
      asks := SideOfSnapshot(snap.asks);
      lastUpdateId, lastEventU := Some(snap.lastUpdateId), Some(snap.lastUpdateId);
      synced, syncState := true, Synced;
      if !Valid(bids, asks, cfg.requiredLevels) {
        synced, syncState := false, Rescheduled(backoff);
        return;
      }
      RecordDepthHistory(nowMs);
      ReplayDepthBuffer(snap.lastUpdateId, backoff);
    }

    method HandleDepthDisconnect(backoff: bool)
      modifies this`synced, this`syncState
      ensures View() == Disconnect(old(View()), backoff)
    {
      if lastUpdateId.None? && buffered == [] {
        return;
      }
      synced, syncState := false, Rescheduled(backoff);
    }

    method Handle(input: Input)
      modifies this
      ensures View() == Step(cfg, old(View()), input)
    {
      match input
      case ServerUpdate(_, _) =>
      case StreamOpened =>
        if syncState == Cold {
          syncState := Buffering;
        }
      case Message(e, backoff) => HandleDepthMessage(e, backoff);
      case RequestBegun => syncState := Bootstrapping;
      case RequestRefused(rateLimited) =>
        synced, syncState := false, if rateLimited then Backoff else ResyncPending;
      case Response(snap, nowMs, backoff) => BootstrapOrderBook(snap, nowMs, backoff);
      case Disconnected(backoff) => HandleDepthDisconnect(backoff);
    }
  }

  /** Driving the object through any possible run leaves it, whenever synced, with the server's book. */
  method Drive(cfg: Config, inputs: seq<Input>) returns (book: OrderBook)
    requires PossibleRun(inputs)
    ensures fresh(book) && book.cfg == cfg && book.View() == Run(cfg, inputs)
    ensures book.synced ==> Mirrors(cfg, LogOf(inputs), book.View())
  {
    book := new OrderBook(cfg);
    for i := 0 to |inputs|
      invariant book.cfg == cfg && book.View() == Run(cfg, inputs[..i])
    {
      assert inputs[..i + 1][..i] == inputs[..i];
      book.Handle(inputs[i]);
    }
    assert inputs[..|inputs|] == inputs;
    RunKeeps(cfg, inputs);
  }
}
