/** The depth-book synchroniser as a state machine over values, and its safety over whole runs. */
module DepthSync {
  import opened Options
  import opened DepthBook
  import opened DepthMetrics

  datatype SyncState = Cold | Buffering | Bootstrapping | Synced | ResyncPending | Backoff | Stale

  /** A depth update event: first id, last id, last id of the event before (0 when absent). */
  datatype DepthEvent = DepthEvent(first: nat, last: nat, previous: nat,
                                   bids: seq<Level>, asks: seq<Level>, timeMs: int)

  datatype Snapshot = Snapshot(lastUpdateId: nat, bids: seq<Level>, asks: seq<Level>)

  datatype Config = Config(requiredLevels: int, maxBuffer: nat)

  datatype BookState = BookState(
    bids: Side,
    asks: Side,
    lastUpdateId: Option<nat>,
    lastEventU: Option<nat>,
    synced: bool,
    syncState: SyncState,
    buffered: seq<DepthEvent>,
    history: seq<Depths>)

  datatype Outcome = Applied | Dropped | SnapshotMissing | Misaligned | Gap | InvalidBook

  const INITIAL := BookState(map[], map[], None, None, false, Cold, [], [])

  /** `_depth_event_aligns_snapshot`. */
  predicate Aligns(e: DepthEvent, id: nat) {
    e.first <= id <= e.last || e.previous == id
  }

  /** The state that scheduling a resync leaves, given whether a backoff is still running. */
  function Rescheduled(backoff: bool): SyncState {
    if backoff then Backoff else ResyncPending
  }

  /** `_buffer_depth_event`. */
  function Buffer(cfg: Config, s: BookState, e: DepthEvent): BookState {
    s.(syncState := if s.syncState == Cold then Buffering else s.syncState,
       buffered := PushBounded(s.buffered, e, cfg.maxBuffer))
  }

  /** `_mark_order_book_invalid`. */
  function MarkInvalid(s: BookState, backoff: bool): BookState {
    s.(synced := false, syncState := Rescheduled(backoff))
  }

  /** `_apply_depth_event`: the state it leaves, and how it ended. */
  function Apply(cfg: Config, s: BookState, e: DepthEvent, backoff: bool): (BookState, Outcome) {
    if s.lastUpdateId.None? then (s, SnapshotMissing)
    else if e.last < s.lastUpdateId.value then (s, Dropped)
    else if s.lastEventU == s.lastUpdateId && !Aligns(e, s.lastUpdateId.value) then (s, Misaligned)
    else if s.lastEventU.Some? && s.lastEventU != s.lastUpdateId
            && e.previous != 0 && e.previous != s.lastEventU.value then (s, Gap)
    else
      var bids, asks := ApplySide(s.bids, e.bids), ApplySide(s.asks, e.asks);
      var changed := s.(bids := bids, asks := asks);
      if !Valid(bids, asks, cfg.requiredLevels) then (MarkInvalid(changed, backoff), InvalidBook)
      else (changed.(lastUpdateId := Some(e.last), lastEventU := Some(e.last), synced := true,
                     syncState := Synced, history := Recorded(s.history, bids, asks, e.timeMs)),
            Applied)
  }

  predicate Raises(o: Outcome) {
    o.SnapshotMissing? || o.Misaligned? || o.Gap? || o.InvalidBook?
  }

  /** `_handle_depth_message`. */
  function HandleMessage(cfg: Config, s: BookState, e: DepthEvent, backoff: bool): BookState {
    if !s.synced || s.lastUpdateId.None? then Buffer(cfg, s, e)
    else
      var (after, outcome) := Apply(cfg, s, e, backoff);
      if !Raises(outcome) then after
      else
        var cleared := after.(synced := false, syncState := ResyncPending, buffered := []);
        Buffer(cfg, cleared, e).(syncState := Rescheduled(backoff))
  }

  /** The buffered events that reach the snapshot id. */
  function Reaching(events: seq<DepthEvent>, id: nat): (r: seq<DepthEvent>)
    ensures |r| <= |events|
  {
    if events == [] then []
    else
      var init, last := events[..|events| - 1], events[|events| - 1];
      Reaching(init, id) + if last.last >= id then [last] else []
  }

  lemma {:induction false} ReachingMembers(events: seq<DepthEvent>, id: nat)
    ensures forall e :: e in Reaching(events, id) <==> e in events && e.last >= id
  {
    if events != [] {
      var init, last := events[..|events| - 1], events[|events| - 1];
      ReachingMembers(init, id);
      assert events == init + [last];
    }
  }

  function FirstAligned(events: seq<DepthEvent>, id: nat): (i: nat)
    ensures i <= |events|
    ensures i < |events| ==> Aligns(events[i], id)
    ensures forall j :: 0 <= j < i ==> !Aligns(events[j], id)
  {
    if events == [] || Aligns(events[0], id) then 0 else 1 + FirstAligned(events[1..], id)
  }

  /** Applying events one by one until one raises. */
  function Replay(cfg: Config, s: BookState, events: seq<DepthEvent>, backoff: bool): BookState
    decreases |events|
  {
    if events == [] then s
    else
      var (after, outcome) := Apply(cfg, s, events[0], backoff);
      if Raises(outcome) then after else Replay(cfg, after, events[1..], backoff)
  }

  /** The snapshot's book, taken over before the buffer is looked at. */
  function Installed(s: BookState, snap: Snapshot): BookState {
    s.(bids := SideOfSnapshot(snap.bids), asks := SideOfSnapshot(snap.asks),
       lastUpdateId := Some(snap.lastUpdateId), lastEventU := Some(snap.lastUpdateId),
       synced := true, syncState := Synced)
  }

  /** The buffer is cut to the events that reach the snapshot, aligned, and replayed. */
  function ReplayBuffer(cfg: Config, s: BookState, id: nat, backoff: bool): BookState {
    var replay := Reaching(s.buffered, id);
    var i := FirstAligned(replay, id);
    if replay == [] then s.(buffered := [])
    else if i == |replay| then s.(synced := false, syncState := ResyncPending, buffered := replay)
    else Replay(cfg, s.(buffered := []), replay[i..], backoff)
  }

  /** The part of `_bootstrap_order_book` after the response arrived: install, then replay. */
  function Bootstrap(cfg: Config, s: BookState, snap: Snapshot, nowMs: int, backoff: bool): BookState {
    var s1 := Installed(s, snap);
    if !Valid(s1.bids, s1.asks, cfg.requiredLevels) then MarkInvalid(s1, backoff)
    else ReplayBuffer(cfg, Measured(s1, nowMs), snap.lastUpdateId, backoff)
  }

  function Measured(s: BookState, nowMs: int): BookState {
    s.(history := Recorded(s.history, s.bids, s.asks, nowMs))
  }

  /** `_handle_depth_disconnect`. */
  function Disconnect(s: BookState, backoff: bool): BookState {
    if s.lastUpdateId.None? && s.buffered == [] then s
    else s.(synced := false, syncState := Rescheduled(backoff))
  }

  /** What can happen: the server's book moves on, the network delivers something, or a request is
      begun, refused or answered. */
  datatype Input =
    | ServerUpdate(bids: seq<Level>, asks: seq<Level>)
    | StreamOpened
    | Message(e: DepthEvent, backoff: bool)
    | RequestBegun
    | RequestRefused(rateLimited: bool)
    | Response(snap: Snapshot, nowMs: int, backoff: bool)
    | Disconnected(backoff: bool)

  function Step(cfg: Config, s: BookState, input: Input): BookState {
    match input
    case ServerUpdate(_, _) => s
    case StreamOpened => s.(syncState := if s.syncState == Cold then Buffering else s.syncState)
    case Message(e, backoff) => HandleMessage(cfg, s, e, backoff)
    case RequestBegun => s.(syncState := Bootstrapping)
    case RequestRefused(rateLimited) => s.(synced := false, syncState := if rateLimited then Backoff else ResyncPending)
    case Response(snap, nowMs, backoff) => Bootstrap(cfg, s, snap, nowMs, backoff)
    case Disconnected(backoff) => Disconnect(s, backoff)
  }

  function Run(cfg: Config, inputs: seq<Input>): BookState {
    if inputs == [] then INITIAL
    else Step(cfg, Run(cfg, inputs[..|inputs| - 1]), inputs[|inputs| - 1])
  }

  /** The server's log after a run. */
  function LogOf(inputs: seq<Input>): Log {
    if inputs == [] then Log([], [])
    else
      var log, input := LogOf(inputs[..|inputs| - 1]), inputs[|inputs| - 1];
      if input.ServerUpdate? then Log(log.bids + [input.bids], log.asks + [input.asks]) else log
  }

  /** An event the server could have sent by now: it summarises its own ids and, when it names its
      predecessor, everything since that predecessor. */
  ghost predicate GenuineEvent(log: Log, e: DepthEvent) {
    && log.WellFormed()
    && 1 <= e.first <= e.last <= |log.bids|
    && Summarises(log.bids, e.first - 1, e.last, e.bids)
    && Summarises(log.asks, e.first - 1, e.last, e.asks)
    && (e.previous != 0 ==>
          && e.previous < e.first
          && Summarises(log.bids, e.previous, e.last, e.bids)
          && Summarises(log.asks, e.previous, e.last, e.asks))
  }

  ghost predicate ListsSide(levels: seq<Level>, side: Side) {
    && (forall i :: 0 <= i < |levels| ==> levels[i].qty == Qty(side, levels[i].price))
    && (forall p :: p in side ==> Quotes(levels, p))
  }

  /** A snapshot the server could have sent by now: its whole book at a positive id. */
  ghost predicate GenuineSnapshot(log: Log, snap: Snapshot) {
    && log.WellFormed()
    && 1 <= snap.lastUpdateId <= |log.bids|
    && ListsSide(snap.bids, SideAt(log.bids, snap.lastUpdateId))
    && ListsSide(snap.asks, SideAt(log.asks, snap.lastUpdateId))
  }

  /** Inputs the server and the network can produce. Nothing forbids losing, repeating, reordering
      or overlapping events, or a snapshot older than the local book. */
  ghost predicate Possible(log: Log, input: Input) {
    match input
    case ServerUpdate(bids, asks) => NonNegative(log.bids + [bids]) && NonNegative(log.asks + [asks])
    case Message(e, _) => GenuineEvent(log, e)
    case Response(snap, _, _) => GenuineSnapshot(log, snap)
    case _ => true
  }

  ghost predicate PossibleRun(inputs: seq<Input>) {
    inputs == [] ||
    (PossibleRun(inputs[..|inputs| - 1]) && Possible(LogOf(inputs[..|inputs| - 1]), inputs[|inputs| - 1]))
  }

  /** The local book is the server's book at the last update id, is publishable, and is what the
      depth history's last entry was measured on. */
  ghost predicate Mirrors(cfg: Config, log: Log, s: BookState) {
    && log.WellFormed()
    && s.lastUpdateId.Some? && s.lastUpdateId.value <= |log.bids|
    && s.bids == SideAt(log.bids, s.lastUpdateId.value)
    && s.asks == SideAt(log.asks, s.lastUpdateId.value)
    && Valid(s.bids, s.asks, cfg.requiredLevels)
    && s.history != []
    && s.history[|s.history| - 1] == DepthsOf(s.bids, s.asks, s.history[|s.history| - 1].timeMs)
  }

  ghost predicate Inv(cfg: Config, log: Log, s: BookState) {
    && log.WellFormed()
    && s.lastEventU == s.lastUpdateId
    && (s.lastUpdateId.Some? ==> 1 <= s.lastUpdateId.value <= |log.bids|)
    && (s.synced ==> Mirrors(cfg, log, s))
    && (forall e :: e in s.buffered ==> GenuineEvent(log, e))
    && |s.buffered| <= cfg.maxBuffer
    && |s.history| <= HISTORY_CAP
  }

  /** A genuine event that passes the alignment test takes a mirrored book to the server's book at
      the event's last id. */
  lemma AlignedEventCatchesUp(log: Log, e: DepthEvent, L: nat)
    requires GenuineEvent(log, e) && 1 <= L <= e.last && Aligns(e, L)
    ensures ApplySide(SideAt(log.bids, L), e.bids) == SideAt(log.bids, e.last)
    ensures ApplySide(SideAt(log.asks, L), e.asks) == SideAt(log.asks, e.last)
  {
    var lo := if e.first <= L then e.first - 1 else e.previous;
    SummaryCatchesUp(log.bids, lo, L, e.last, e.bids);
    SummaryCatchesUp(log.asks, lo, L, e.last, e.asks);
  }

  /** One event on a synced book: the gap branch is dead, and unless the book turns out unusable it
      still mirrors the server. */
  lemma ApplyKeeps(cfg: Config, log: Log, s: BookState, e: DepthEvent, backoff: bool)
    requires Inv(cfg, log, s) && s.synced && GenuineEvent(log, e)
    ensures var (after, outcome) := Apply(cfg, s, e, backoff);
            && Inv(cfg, log, after)
            && !outcome.Gap? && !outcome.SnapshotMissing?
            && (after.synced <==> !outcome.InvalidBook?)
            && after.lastUpdateId.value >= s.lastUpdateId.value
            && after.buffered == s.buffered
            && (outcome.Applied? ==> after.lastUpdateId.value == e.last)
            && (outcome.Dropped? || outcome.Misaligned? ==> after == s)
  {
    var L := s.lastUpdateId.value;
    if e.last >= L && Aligns(e, L) {
      AlignedEventCatchesUp(log, e, L);
    }
  }

  lemma {:induction false} ReplayKeeps(cfg: Config, log: Log, s: BookState, events: seq<DepthEvent>, backoff: bool)
    requires Inv(cfg, log, s) && s.synced
    requires forall e :: e in events ==> GenuineEvent(log, e)
    ensures Inv(cfg, log, Replay(cfg, s, events, backoff))
    ensures var after := Replay(cfg, s, events, backoff);
            && after.lastUpdateId.Some? && after.lastUpdateId.value >= s.lastUpdateId.value
            && after.buffered == s.buffered
    decreases |events|
  {
    if events != [] {
      assert events[0] in events;
      ApplyKeeps(cfg, log, s, events[0], backoff);
      var (after, outcome) := Apply(cfg, s, events[0], backoff);
      if !Raises(outcome) {
        assert forall e :: e in events[1..] ==> e in events;
        ReplayKeeps(cfg, log, after, events[1..], backoff);
      }
    }
  }

  lemma PushedIsOldOrNew<T>(items: seq<T>, item: T, cap: nat)
    ensures forall x :: x in PushBounded(items, item, cap) ==> x in items || x == item
  {
  }

  lemma InstallMirrors(cfg: Config, log: Log, s: BookState, snap: Snapshot, nowMs: int)
    requires Inv(cfg, log, s) && GenuineSnapshot(log, snap)
    ensures var s1 := Installed(s, snap);
            && s1.bids == SideAt(log.bids, snap.lastUpdateId)
            && s1.asks == SideAt(log.asks, snap.lastUpdateId)
            && (Valid(s1.bids, s1.asks, cfg.requiredLevels) ==>
                  Inv(cfg, log, Measured(s1, nowMs)))
  {
    var id := snap.lastUpdateId;
    ServerIsPositive(log.bids, id);
    ServerIsPositive(log.asks, id);
    SnapshotLoadsBook(snap.bids, SideAt(log.bids, id));
    SnapshotLoadsBook(snap.asks, SideAt(log.asks, id));
  }

  lemma ReplayBufferKeeps(cfg: Config, log: Log, s: BookState, id: nat, backoff: bool)
    requires Inv(cfg, log, s) && s.synced
    ensures Inv(cfg, log, ReplayBuffer(cfg, s, id, backoff))
  {
    var replay := Reaching(s.buffered, id);
    var i := FirstAligned(replay, id);
    ReachingMembers(s.buffered, id);
    if i < |replay| {
      var events := replay[i..];
      forall e | e in events ensures GenuineEvent(log, e) {
        assert e in replay;
      }
      ReplayKeeps(cfg, log, s.(buffered := []), events, backoff);
    }
  }

  lemma BootstrapKeeps(cfg: Config, log: Log, s: BookState, snap: Snapshot, nowMs: int, backoff: bool)
    requires Inv(cfg, log, s) && GenuineSnapshot(log, snap)
    ensures Inv(cfg, log, Bootstrap(cfg, s, snap, nowMs, backoff))
  {
    InstallMirrors(cfg, log, s, snap, nowMs);
    var s1 := Installed(s, snap);
    if Valid(s1.bids, s1.asks, cfg.requiredLevels) {
      ReplayBufferKeeps(cfg, log, Measured(s1, nowMs), snap.lastUpdateId, backoff);
    }
  }

  lemma MessageKeeps(cfg: Config, log: Log, s: BookState, e: DepthEvent, backoff: bool)
    requires Inv(cfg, log, s) && GenuineEvent(log, e)
    ensures Inv(cfg, log, HandleMessage(cfg, s, e, backoff))
  {
    PushedIsOldOrNew(s.buffered, e, cfg.maxBuffer);
    PushedIsOldOrNew([], e, cfg.maxBuffer);
    if s.synced {
      ApplyKeeps(cfg, log, s, e, backoff);
    }
  }

  lemma EventStaysGenuine(log: Log, more: Log, e: DepthEvent)
    requires GenuineEvent(log, e) && more.WellFormed() && log.bids <= more.bids && log.asks <= more.asks
    ensures GenuineEvent(more, e)
  {
    SummaryStays(log.bids, more.bids, e.first - 1, e.last, e.bids);
    SummaryStays(log.asks, more.asks, e.first - 1, e.last, e.asks);
    if e.previous != 0 {
      SummaryStays(log.bids, more.bids, e.previous, e.last, e.bids);
      SummaryStays(log.asks, more.asks, e.previous, e.last, e.asks);
    }
  }

  lemma LogGrowthKeeps(cfg: Config, log: Log, more: Log, s: BookState)
    requires Inv(cfg, log, s) && more.WellFormed() && log.bids <= more.bids && log.asks <= more.asks
    ensures Inv(cfg, more, s)
  {
    forall e | e in s.buffered ensures GenuineEvent(more, e) {
      EventStaysGenuine(log, more, e);
    }
    if s.lastUpdateId.Some? {
      LogPrefixSameSide(log.bids, more.bids, s.lastUpdateId.value);
      LogPrefixSameSide(log.asks, more.asks, s.lastUpdateId.value);
    }
  }

  /** The invariant holds in every reachable state. */
  lemma {:induction false} RunKeeps(cfg: Config, inputs: seq<Input>)
    requires PossibleRun(inputs)
    ensures Inv(cfg, LogOf(inputs), Run(cfg, inputs))
  {
    if inputs != [] {
      var before, input := inputs[..|inputs| - 1], inputs[|inputs| - 1];
      RunKeeps(cfg, before);
      var log, s := LogOf(before), Run(cfg, before);
      match input
      case ServerUpdate(bids, asks) => LogGrowthKeeps(cfg, log, LogOf(inputs), s);
      case Message(e, backoff) => MessageKeeps(cfg, log, s, e, backoff);
      case Response(snap, nowMs, backoff) => BootstrapKeeps(cfg, log, s, snap, nowMs, backoff);
      case _ =>
    }
  }

  /** Safety: in every reachable state, a synced local book is exactly the server's book at the last
      update id, and it is one the adapter would publish. */
  lemma SyncedMeansServerBook(cfg: Config, inputs: seq<Input>)
    requires PossibleRun(inputs)
    ensures var log, s := LogOf(inputs), Run(cfg, inputs);
            && s.lastEventU == s.lastUpdateId
            && log.WellFormed()
            && (s.synced ==>
                  && s.lastUpdateId.Some? && 1 <= s.lastUpdateId.value <= |log.bids|
                  && s.bids == SideAt(log.bids, s.lastUpdateId.value)
                  && s.asks == SideAt(log.asks, s.lastUpdateId.value)
                  && Valid(s.bids, s.asks, cfg.requiredLevels))
  {
    RunKeeps(cfg, inputs);
  }

  /** In no reachable synced state does any genuine event take the gap branch; it is refused exactly
      when it leaves ids out, that is, starts after the book's id and does not name that id as its
      predecessor. */
  lemma AlignmentIsContinuity(cfg: Config, inputs: seq<Input>, e: DepthEvent, backoff: bool)
    requires PossibleRun(inputs) && Run(cfg, inputs).synced && GenuineEvent(LogOf(inputs), e)
    ensures var s := Run(cfg, inputs);
            var outcome := Apply(cfg, s, e, backoff).1;
            && !outcome.Gap? && s.lastUpdateId.Some?
            && (outcome.Misaligned? <==> e.first > s.lastUpdateId.value && e.previous != s.lastUpdateId.value)
  {
    RunKeeps(cfg, inputs);
    ApplyKeeps(cfg, LogOf(inputs), Run(cfg, inputs), e, backoff);
  }

  /** Each event picks up where the one before it ended: it covers that id or names it as its predecessor. */
  ghost predicate Chained(events: seq<DepthEvent>) {
    forall i :: 0 < i < |events| ==> Continues(events, i)
  }

  ghost predicate Continues(events: seq<DepthEvent>, i: nat)
    requires 0 < i < |events|
  {
    && events[i - 1].last <= events[i].last
    && Aligns(events[i], events[i - 1].last)
  }

  /** Every book the server had at the end of one of the events was usable. */
  ghost predicate AllUsable(cfg: Config, log: Log, events: seq<DepthEvent>) {
    forall i :: 0 <= i < |events| ==> Usable(cfg, log, events[i])
  }

  ghost predicate Usable(cfg: Config, log: Log, e: DepthEvent) {
    && e.last <= |log.bids| && e.last <= |log.asks|
    && Valid(SideAt(log.bids, e.last), SideAt(log.asks, e.last), cfg.requiredLevels)
  }

  ghost predicate AllGenuine(log: Log, events: seq<DepthEvent>) {
    forall i :: 0 <= i < |events| ==> GenuineEvent(log, events[i])
  }

  lemma TailChained(events: seq<DepthEvent>, k: nat)
    requires Chained(events) && k < |events|
    ensures Chained(events[k..])
  {
    forall i | 0 < i < |events[k..]| ensures Continues(events[k..], i) {
      assert Continues(events, k + i);
    }
  }

  /** A genuine aligned event whose book is usable is applied, and the book is then at its last id. */
  lemma UsableEventApplies(cfg: Config, log: Log, s: BookState, e: DepthEvent, backoff: bool)
    requires Inv(cfg, log, s) && s.synced && GenuineEvent(log, e) && Usable(cfg, log, e)
    requires e.last >= s.lastUpdateId.value && Aligns(e, s.lastUpdateId.value)
    ensures var (after, outcome) := Apply(cfg, s, e, backoff);
            outcome.Applied? && Inv(cfg, log, after) && after.synced && after.lastUpdateId == Some(e.last)
  {
    AlignedEventCatchesUp(log, e, s.lastUpdateId.value);
    ApplyKeeps(cfg, log, s, e, backoff);
  }

  /** Replay is complete: a chained buffer that aligns with the book brings it up to the last event. */
  lemma {:induction false} ChainReplays(cfg: Config, log: Log, s: BookState, events: seq<DepthEvent>, backoff: bool)
    requires Inv(cfg, log, s) && s.synced && events != []
    requires Chained(events) && AllGenuine(log, events) && AllUsable(cfg, log, events)
    requires events[0].last >= s.lastUpdateId.value && Aligns(events[0], s.lastUpdateId.value)
    ensures var after := Replay(cfg, s, events, backoff);
            after.synced && after.lastUpdateId == Some(events[|events| - 1].last)
    decreases |events|
  {
    UsableEventApplies(cfg, log, s, events[0], backoff);
    var after := Apply(cfg, s, events[0], backoff).0;
    var rest := events[1..];
    assert Replay(cfg, s, events, backoff) == Replay(cfg, after, rest, backoff);
    if rest != [] {
      assert Continues(events, 1);
      TailChained(events, 1);
      ChainReplays(cfg, log, after, rest, backoff);
      assert rest[|rest| - 1] == events[|events| - 1];
    }
  }

  /** The events a replay from book `id` takes in: those behind the book are passed over, the first that does
      not align ends it. */
  function Replayed(events: seq<DepthEvent>, id: nat): seq<DepthEvent>
    decreases |events|
  {
    if events == [] then []
    else if events[0].last < id then Replayed(events[1..], id)
    else if !Aligns(events[0], id) then []
    else [events[0]] + Replayed(events[1..], events[0].last)
  }

  /** The book's id after those. */
  function ReplayedTo(events: seq<DepthEvent>, id: nat): nat
    decreases |events|
  {
    if events == [] then id
    else if events[0].last < id then ReplayedTo(events[1..], id)
    else if !Aligns(events[0], id) then id
    else ReplayedTo(events[1..], events[0].last)
  }

  /** A genuine aligned event leaves the book synced exactly when the server's book at its end is usable. */
  lemma AlignedEventExactly(cfg: Config, log: Log, s: BookState, e: DepthEvent, backoff: bool)
    requires Inv(cfg, log, s) && s.synced && GenuineEvent(log, e)
    requires e.last >= s.lastUpdateId.value && Aligns(e, s.lastUpdateId.value)
    ensures var (after, outcome) := Apply(cfg, s, e, backoff);
            if Usable(cfg, log, e) then outcome.Applied? && after.synced && after.lastUpdateId == Some(e.last)
            else Raises(outcome) && !after.synced
  {
    AlignedEventCatchesUp(log, e, s.lastUpdateId.value);
  }

  /** A replay, of whatever buffer, ends synced exactly when every event it takes in leaves a usable book. */
  lemma {:induction false} ReplayExactly(cfg: Config, log: Log, s: BookState, events: seq<DepthEvent>, backoff: bool)
    requires Inv(cfg, log, s) && s.synced && AllGenuine(log, events)
    ensures var after := Replay(cfg, s, events, backoff);
            && (after.synced <==> AllUsable(cfg, log, Replayed(events, s.lastUpdateId.value)))
            && (after.synced ==> after.lastUpdateId == Some(ReplayedTo(events, s.lastUpdateId.value)))
    decreases |events|
  {
    if events != [] {
      var e, id := events[0], s.lastUpdateId.value;
      var after := Apply(cfg, s, e, backoff).0;
      ApplyKeeps(cfg, log, s, e, backoff);
      if e.last >= id && Aligns(e, id) {
        AlignedEventExactly(cfg, log, s, e, backoff);
        FirstUsable(cfg, log, e, Replayed(events[1..], e.last));
        if Usable(cfg, log, e) {
          ReplayExactly(cfg, log, after, events[1..], backoff);
        }
      } else if e.last < id {
        ReplayExactly(cfg, log, s, events[1..], backoff);
      }
    }
  }

  lemma FirstUsable(cfg: Config, log: Log, e: DepthEvent, events: seq<DepthEvent>)
    ensures AllUsable(cfg, log, [e] + events) <==> Usable(cfg, log, e) && AllUsable(cfg, log, events)
  {
    assert forall i :: 0 <= i < |events| ==> ([e] + events)[i + 1] == events[i];
    assert ([e] + events)[0] == e;
  }

  /** No buffered event reaches the snapshot id. */
  ghost predicate NoneReaches(events: seq<DepthEvent>, id: nat) {
    forall i :: 0 <= i < |events| ==> events[i].last < id
  }

  /** Some buffered event reaches the snapshot id and aligns with it. */
  ghost predicate SomeAligns(events: seq<DepthEvent>, id: nat) {
    exists i :: 0 <= i < |events| && events[i].last >= id && Aligns(events[i], id)
  }

  lemma ReachingAligned(events: seq<DepthEvent>, id: nat)
    ensures Reaching(events, id) == [] <==> NoneReaches(events, id)
    ensures FirstAligned(Reaching(events, id), id) < |Reaching(events, id)| <==> SomeAligns(events, id)
  {
    var replay := Reaching(events, id);
    ReachingMembers(events, id);
    if replay != [] {
      assert replay[0] in events;
    }
    if !NoneReaches(events, id) {
      var i :| 0 <= i < |events| && events[i].last >= id;
      assert events[i] in replay;
    }
    var k := FirstAligned(replay, id);
    if k < |replay| {
      assert replay[k] in replay;
    }
    if SomeAligns(events, id) {
      var i :| 0 <= i < |events| && events[i].last >= id && Aligns(events[i], id);
      assert events[i] in replay;
      var j :| 0 <= j < |replay| && replay[j] == events[i];
    }
  }

  /** What a bootstrap replays: the buffer from the first event on that reaches the snapshot and aligns with it. */
  function ToReplay(events: seq<DepthEvent>, id: nat): seq<DepthEvent> {
    var replay := Reaching(events, id);
    replay[FirstAligned(replay, id)..]
  }

  lemma ToReplayKeeps(log: Log, events: seq<DepthEvent>, id: nat)
    requires AllGenuine(log, events)
    ensures AllGenuine(log, ToReplay(events, id))
    ensures forall e :: e in ToReplay(events, id) ==> e in events
  {
    var replay := ToReplay(events, id);
    ReachingMembers(events, id);
    assert forall e :: e in replay ==> e in Reaching(events, id);
    forall i | 0 <= i < |replay| ensures GenuineEvent(log, replay[i]) {
      assert replay[i] in replay;
      var j :| 0 <= j < |events| && events[j] == replay[i];
    }
  }

  /** The buffer is accepted exactly when none of it reaches the snapshot, or some of it aligns and all that is
      then taken in leaves usable books. */
  lemma ReplayBufferExactly(cfg: Config, log: Log, s: BookState, id: nat, backoff: bool)
    requires Inv(cfg, log, s) && s.synced && s.lastUpdateId == Some(id)
    ensures var after, replay := ReplayBuffer(cfg, s, id, backoff), ToReplay(s.buffered, id);
            && (after.synced <==> NoneReaches(s.buffered, id)
                                  || (SomeAligns(s.buffered, id) && AllUsable(cfg, log, Replayed(replay, id))))
            && (after.synced ==> after.lastUpdateId == Some(ReplayedTo(replay, id)))
  {
    ReachingAligned(s.buffered, id);
    BufferIsGenuine(cfg, log, s);
    ToReplayKeeps(log, s.buffered, id);
    ReplayExactly(cfg, log, s.(buffered := []), ToReplay(s.buffered, id), backoff);
  }

  lemma BufferIsGenuine(cfg: Config, log: Log, s: BookState)
    requires Inv(cfg, log, s)
    ensures Inv(cfg, log, s.(buffered := [])) && AllGenuine(log, s.buffered)
  {
    assert forall i :: 0 <= i < |s.buffered| ==> s.buffered[i] in s.buffered;
  }

  /** A snapshot response ends synced exactly when its own book is usable and either no buffered event reaches it,
      or some reaching event aligns with it and every event then taken in leaves a usable book. It ends at the
      last of those. */
  lemma BootstrapSyncsExactly(cfg: Config, log: Log, s: BookState, snap: Snapshot, nowMs: int, backoff: bool)
    requires Inv(cfg, log, s) && GenuineSnapshot(log, snap)
    ensures var id, after := snap.lastUpdateId, Bootstrap(cfg, s, snap, nowMs, backoff);
            && (after.synced <==>
                  && Valid(SideAt(log.bids, id), SideAt(log.asks, id), cfg.requiredLevels)
                  && (|| NoneReaches(s.buffered, id)
                      || (SomeAligns(s.buffered, id) && AllUsable(cfg, log, Replayed(ToReplay(s.buffered, id), id)))))
            && (after.synced ==> after.lastUpdateId == Some(ReplayedTo(ToReplay(s.buffered, id), id)))
  {
    InstallMirrors(cfg, log, s, snap, nowMs);
    if Valid(SideAt(log.bids, snap.lastUpdateId), SideAt(log.asks, snap.lastUpdateId), cfg.requiredLevels) {
      ReplayBufferExactly(cfg, log, Measured(Installed(s, snap), nowMs), snap.lastUpdateId, backoff);
    }
  }

  /** On a chained buffer everything from the first aligned event on is taken in. */
  lemma {:induction false} ChainIsReplayed(events: seq<DepthEvent>, id: nat)
    requires Chained(events) && (events != [] ==> events[0].last >= id && Aligns(events[0], id))
    ensures Replayed(events, id) == events
    ensures ReplayedTo(events, id) == if events == [] then id else events[|events| - 1].last
    decreases |events|
  {
    if events != [] {
      var rest := events[1..];
      if rest != [] {
        assert Continues(events, 1);
        TailChained(events, 1);
        assert rest[|rest| - 1] == events[|events| - 1];
      }
      ChainIsReplayed(rest, events[0].last);
      assert events == [events[0]] + rest;
    }
  }

  /** So a bootstrap on a chained buffer of usable books ends synced exactly when nothing buffered reaches the
      snapshot or something aligns with it, and has then caught up with the last buffered event. */
  lemma BootstrapCatchesUp(cfg: Config, log: Log, s: BookState, snap: Snapshot, nowMs: int, backoff: bool)
    requires Inv(cfg, log, s) && GenuineSnapshot(log, snap) && AllUsable(cfg, log, s.buffered) && Chained(s.buffered)
    requires Valid(SideAt(log.bids, snap.lastUpdateId), SideAt(log.asks, snap.lastUpdateId), cfg.requiredLevels)
    ensures var id, after := snap.lastUpdateId, Bootstrap(cfg, s, snap, nowMs, backoff);
            && (after.synced <==> NoneReaches(s.buffered, id) || SomeAligns(s.buffered, id))
            && (after.synced ==> after.lastUpdateId == Some(CaughtUp(s.buffered, id)))
  {
    BootstrapSyncsExactly(cfg, log, s, snap, nowMs, backoff);
    ChainCatchesUp(cfg, log, s.buffered, snap.lastUpdateId);
  }

  lemma ChainCatchesUp(cfg: Config, log: Log, events: seq<DepthEvent>, id: nat)
    requires Chained(events) && AllUsable(cfg, log, events)
    ensures SomeAligns(events, id) ==> AllUsable(cfg, log, Replayed(ToReplay(events, id), id))
    ensures NoneReaches(events, id) || SomeAligns(events, id)
        ==> ReplayedTo(ToReplay(events, id), id) == CaughtUp(events, id)
  {
    if SomeAligns(events, id) {
      ChainedToReplay(cfg, log, events, id);
    } else if NoneReaches(events, id) {
      ReachingAligned(events, id);
    }
  }

  /** The snapshot's id, or the end of the buffer if that reaches further. */
  ghost function CaughtUp(events: seq<DepthEvent>, id: nat): nat {
    if NoneReaches(events, id) then id else events[|events| - 1].last
  }

  lemma ChainedToReplay(cfg: Config, log: Log, events: seq<DepthEvent>, id: nat)
    requires Chained(events) && AllUsable(cfg, log, events) && SomeAligns(events, id)
    ensures AllUsable(cfg, log, Replayed(ToReplay(events, id), id))
    ensures ReplayedTo(ToReplay(events, id), id) == events[|events| - 1].last
  {
    var k := AlignedSuffix(events, id);
    TailChained(events, k);
    ChainIsReplayed(events[k..], id);
    assert events[k..][|events[k..]| - 1] == events[|events| - 1];
  }

  /** In a chained buffer the events from the first aligned one on are a suffix of it. */
  lemma AlignedSuffix(events: seq<DepthEvent>, id: nat) returns (k: nat)
    requires Chained(events) && SomeAligns(events, id)
    ensures k < |events| && events[k].last >= id && Aligns(events[k], id)
    ensures ToReplay(events, id) == events[k..]
  {
    AlignedMeansReached(events, id);
    var from := ReachingIsSuffix(events, id);
    var i := FirstReached(events, id, from);
    k := from + i;
    ChainIsMonotone(events, from, k);
  }

  lemma FirstReached(events: seq<DepthEvent>, id: nat, from: nat) returns (i: nat)
    requires from < |events| && Reaching(events, id) == events[from..] && SomeAligns(events, id)
    ensures from + i < |events| && Aligns(events[from + i], id) && ToReplay(events, id) == events[from + i..]
  {
    ReachingAligned(events, id);
    i := FirstAligned(Reaching(events, id), id);
    SuffixOfSuffix(events, from, i);
  }

  lemma SuffixOfSuffix<T>(items: seq<T>, from: nat, i: nat)
    requires from + i < |items|
    ensures items[from..][i] == items[from + i] && items[from..][i..] == items[from + i..]
  {
  }

  lemma AlignedMeansReached(events: seq<DepthEvent>, id: nat)
    requires Chained(events) && SomeAligns(events, id)
    ensures events != [] && id <= events[|events| - 1].last
  {
    var j :| 0 <= j < |events| && events[j].last >= id && Aligns(events[j], id);
    ChainIsMonotone(events, j, |events| - 1);
  }

  // A run whose buffer has a hole at the snapshot id: the second update changed nothing and no event numbers it.

  const HOLE_BIDS: seq<Level> := [Level(1.0, 1.0)]
  const HOLE_ASKS: seq<Level> := [Level(2.0, 1.0)]
  const HOLE_LOG := Log([HOLE_BIDS, [], []], [HOLE_ASKS, [], []])
  const BEFORE_HOLE := DepthEvent(1, 1, 0, HOLE_BIDS, HOLE_ASKS, 0)
  const AFTER_HOLE := DepthEvent(3, 3, 1, [], [], 1)
  const IN_HOLE := Snapshot(2, HOLE_BIDS, HOLE_ASKS)

  lemma OneLevel(price: real)
    ensures ApplySide(map[], [Level(price, 1.0)]) == map[price := 1.0]
  {
    var updates := [Level(price, 1.0)];
    assert updates[..|updates| - 1] == [];
    assert ApplySide(map[], []) == map[];
  }

  lemma HoleSide(log: SideLog, price: real, n: nat)
    requires log == [[Level(price, 1.0)], [], []] && 1 <= n <= 3
    ensures SideAt(log, n) == map[price := 1.0]
  {
    OneLevel(price);
    assert SideAt(log, 0) == map[];
    assert SideAt(log, 1) == map[price := 1.0];
    if n > 1 { assert SideAt(log, 2) == map[price := 1.0]; }
    if n > 2 { assert SideAt(log, 3) == map[price := 1.0]; }
  }

  lemma HoleEventsAreGenuine()
    ensures GenuineEvent(HOLE_LOG, BEFORE_HOLE) && GenuineEvent(HOLE_LOG, AFTER_HOLE)
  {
    HoleSide(HOLE_LOG.bids, 1.0, 1);
    HoleSide(HOLE_LOG.asks, 2.0, 1);
    assert Quotes(HOLE_BIDS, 1.0) && Quotes(HOLE_ASKS, 2.0);
    assert forall p :: !Quotes([], p);
    assert forall p :: Touched(HOLE_LOG.bids, 0, 1, p) ==> Quotes(HOLE_BIDS, p);
    assert forall p :: Touched(HOLE_LOG.asks, 0, 1, p) ==> Quotes(HOLE_ASKS, p);
  }

  lemma HoleSnapshotIsGenuine()
    ensures GenuineSnapshot(HOLE_LOG, IN_HOLE)
  {
    HoleSide(HOLE_LOG.bids, 1.0, 2);
    HoleSide(HOLE_LOG.asks, 2.0, 2);
    assert HOLE_BIDS[0].price == 1.0 && HOLE_ASKS[0].price == 2.0;
    assert Quotes(HOLE_BIDS, 1.0) && Quotes(HOLE_ASKS, 2.0);
  }

  lemma HoleBooksAreUsable(cfg: Config, n: nat)
    requires cfg.requiredLevels <= 1 && 1 <= n <= 3
    ensures Valid(SideAt(HOLE_LOG.bids, n), SideAt(HOLE_LOG.asks, n), cfg.requiredLevels)
  {
    HoleSide(HOLE_LOG.bids, 1.0, n);
    HoleSide(HOLE_LOG.asks, 2.0, n);
  }

  /** A chained, usable buffer with a snapshot inside its ids that no bootstrap can use: the snapshot's id falls
      between the events, and the second names the end of the first as its predecessor. */
  lemma HoleStopsBootstrap(cfg: Config, nowMs: int, backoff: bool) returns (s: BookState)
    requires cfg.requiredLevels <= 1 && cfg.maxBuffer >= 2
    ensures s.buffered == [BEFORE_HOLE, AFTER_HOLE] && Inv(cfg, HOLE_LOG, s) && GenuineSnapshot(HOLE_LOG, IN_HOLE)
    ensures Chained(s.buffered) && AllUsable(cfg, HOLE_LOG, s.buffered)
    ensures BEFORE_HOLE.last < IN_HOLE.lastUpdateId < AFTER_HOLE.first
    ensures !Bootstrap(cfg, s, IN_HOLE, nowMs, backoff).synced
  {
    s := HandleMessage(cfg, HandleMessage(cfg, INITIAL, BEFORE_HOLE, backoff), AFTER_HOLE, backoff);
    HoleBufferKeeps(cfg, s);
    HoleSnapshotIsGenuine();
    BootstrapSyncsExactly(cfg, HOLE_LOG, s, IN_HOLE, nowMs, backoff);
    assert s.buffered[1].last >= 2;
  }

  lemma HoleBufferKeeps(cfg: Config, s: BookState)
    requires cfg.requiredLevels <= 1 && cfg.maxBuffer >= 2
    requires s == INITIAL.(syncState := Buffering, buffered := [BEFORE_HOLE, AFTER_HOLE])
    ensures Inv(cfg, HOLE_LOG, s) && Chained(s.buffered) && AllUsable(cfg, HOLE_LOG, s.buffered)
  {
    HoleEventsAreGenuine();
    HoleBooksAreUsable(cfg, 1);
    HoleBooksAreUsable(cfg, 3);
    assert Continues(s.buffered, 1);
  }

  lemma {:induction false} ChainIsMonotone(events: seq<DepthEvent>, i: nat, j: nat)
    requires Chained(events) && i <= j < |events|
    ensures events[i].last <= events[j].last
  {
    if i < j {
      ChainIsMonotone(events, i, j - 1);
      assert Continues(events, j);
    }
  }

  lemma {:induction false} ReachingAll(events: seq<DepthEvent>, id: nat, k: nat)
    requires k <= |events|
    requires forall i :: 0 <= i < k ==> events[i].last < id
    requires forall i :: k <= i < |events| ==> events[i].last >= id
    ensures Reaching(events, id) == events[k..]
    decreases |events|
  {
    if events != [] {
      var init := events[..|events| - 1];
      if k == |events| {
        ReachingAll(init, id, k - 1);
      } else {
        ReachingAll(init, id, k);
        assert events[k..] == init[k..] + [events[|events| - 1]];
      }
    }
  }

  /** In a chained buffer the events that reach the snapshot id are a suffix. */
  lemma ReachingIsSuffix(events: seq<DepthEvent>, id: nat) returns (k: nat)
    requires Chained(events) && events != [] && id <= events[|events| - 1].last
    ensures k < |events| && Reaching(events, id) == events[k..]
    ensures events[k].last >= id && (k > 0 ==> events[k - 1].last < id)
  {
    k := |events| - 1;
    while k > 0 && events[k - 1].last >= id
      invariant k < |events| && events[k].last >= id
    {
      k := k - 1;
    }
    forall i | 0 <= i < k ensures events[i].last < id {
      ChainIsMonotone(events, i, k - 1);
    }
    forall i | k <= i < |events| ensures events[i].last >= id {
      ChainIsMonotone(events, k, i);
    }
    ReachingAll(events, id, k);
  }

  /** What `_local_book_snapshot` publishes. */
  datatype Published = Published(bestBid: real, bestAsk: real, lastUpdateId: Option<nat>,
                                 imbalance1: real, imbalance5: real, imbalance10: real,
                                 bid5Depletion: real, ask5Depletion: real,
                                 bid10Depletion: real, ask10Depletion: real)

  function ImbalanceAt(s: BookState, levels: nat): real {
    Imbalance(TopDepth(s.bids, levels, true), TopDepth(s.asks, levels, false))
  }

  function DepletionOf(current: real, history: seq<real>): real {
    Depletion(current, Maximum(history, current))
  }

  function Column(history: seq<Depths>, pick: Depths -> real): (r: seq<real>)
    ensures |r| == |history|
    ensures forall i :: 0 <= i < |history| ==> r[i] == pick(history[i])
  {
    seq(|history|, i requires 0 <= i < |history| => pick(history[i]))
  }

  // The depths of a reading, as the columns of the history.

  function Bid5(d: Depths): real { d.bid5 }

  function Ask5(d: Depths): real { d.ask5 }

  function Bid10(d: Depths): real { d.bid10 }

  function Ask10(d: Depths): real { d.ask10 }

  function Publish(cfg: Config, s: BookState): Option<Published> {
    if !s.synced || !Valid(s.bids, s.asks, cfg.requiredLevels) then None
    else
      Some(Published(
             Best(s.bids, true), Best(s.asks, false), s.lastUpdateId,
             ImbalanceAt(s, 1), ImbalanceAt(s, 5), ImbalanceAt(s, 10),
             DepletionOf(TopDepth(s.bids, 5, true), Column(s.history, Bid5)),
             DepletionOf(TopDepth(s.asks, 5, false), Column(s.history, Ask5)),
             DepletionOf(TopDepth(s.bids, 10, true), Column(s.history, Bid10)),
             DepletionOf(TopDepth(s.asks, 10, false), Column(s.history, Ask10))))
  }

  /** In every reachable state a book is published exactly when synced, and then every published
      depletion lies in (0, 1], every imbalance in [-1, 1], and the book is not crossed. */
  lemma PublishedInRange(cfg: Config, inputs: seq<Input>)
    requires PossibleRun(inputs)
    ensures var s := Run(cfg, inputs);
            && (Publish(cfg, s).Some? <==> s.synced)
            && (s.synced ==>
                  var p := Publish(cfg, s).value;
                  && p.bestBid < p.bestAsk
                  && -1.0 <= p.imbalance1 <= 1.0
                  && -1.0 <= p.imbalance5 <= 1.0
                  && -1.0 <= p.imbalance10 <= 1.0
                  && 0.0 < p.bid5Depletion <= 1.0
                  && 0.0 < p.ask5Depletion <= 1.0
                  && 0.0 < p.bid10Depletion <= 1.0
                  && 0.0 < p.ask10Depletion <= 1.0)
  {
    RunKeeps(cfg, inputs);
    var log, s := LogOf(inputs), Run(cfg, inputs);
    if s.synced {
      ServerIsPositive(log.bids, s.lastUpdateId.value);
      ServerIsPositive(log.asks, s.lastUpdateId.value);
      ImbalanceAtInRange(s, 1);
      ImbalanceAtInRange(s, 5);
      ImbalanceAtInRange(s, 10);
      TopDepthPositive(s.bids, 5, true);
      TopDepthPositive(s.asks, 5, false);
      TopDepthPositive(s.bids, 10, true);
      TopDepthPositive(s.asks, 10, false);
      DepletionInRange(TopDepth(s.bids, 5, true), Column(s.history, Bid5));
      DepletionInRange(TopDepth(s.asks, 5, false), Column(s.history, Ask5));
      DepletionInRange(TopDepth(s.bids, 10, true), Column(s.history, Bid10));
      DepletionInRange(TopDepth(s.asks, 10, false), Column(s.history, Ask10));
    }
  }

  lemma ImbalanceAtInRange(s: BookState, levels: nat)
    requires Positive(s.bids) && Positive(s.asks)
    ensures -1.0 <= ImbalanceAt(s, levels) <= 1.0
  {
    TopDepthPositive(s.bids, levels, true);
    TopDepthPositive(s.asks, levels, false);
    ImbalanceInRange(TopDepth(s.bids, levels, true), TopDepth(s.asks, levels, false));
  }

  /** `_depth_sync_state`, given whether a backoff runs and whether the stream went quiet. */
  function ReportedState(s: BookState, backoff: bool, quiet: bool): SyncState {
    if s.syncState == Bootstrapping then Bootstrapping
    else if backoff then Backoff
    else if s.syncState in {Cold, Buffering, ResyncPending} then s.syncState
    else if !s.synced then if s.lastUpdateId.Some? then ResyncPending else Buffering
    else if quiet then Stale
    else Synced
  }

  /** A reported "synced" is never a lie. */
  lemma ReportedSyncedIsTrue(cfg: Config, inputs: seq<Input>, backoff: bool, quiet: bool)
    requires PossibleRun(inputs)
    requires ReportedState(Run(cfg, inputs), backoff, quiet) == Synced
    ensures Mirrors(cfg, LogOf(inputs), Run(cfg, inputs))
  {
    RunKeeps(cfg, inputs);
  }
}
