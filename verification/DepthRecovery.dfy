/** The synchroniser seen from outside: which id it stands at and which events wait, told from the server's books and
    the inputs alone. Falling out of step publishes nothing until a snapshot is answered, and an answer catches up. */
module DepthRecovery {
  import opened Options
  import opened DepthBook
  import opened DepthMetrics
  import opened DepthSync

  /** The id of the mirrored book while there is one, and the events that wait for a snapshot. */
  datatype Link = Link(at: Option<nat>, waiting: seq<DepthEvent>)

  function LinkOf(s: BookState): Link {
    Link(if s.synced then s.lastUpdateId else None, s.buffered)
  }

  /** A book fit to be published: deep enough on both sides, and every bid below every ask. */
  ghost predicate Publishable(bids: Side, asks: Side, levels: int) {
    && bids != map[] && asks != map[] && |bids| >= levels && |asks| >= levels
    && forall b, a :: b in bids && a in asks ==> b < a
  }

  ghost predicate ServerPublishable(cfg: Config, log: Log, id: nat) {
    && id <= |log.bids| && id <= |log.asks|
    && Publishable(SideAt(log.bids, id), SideAt(log.asks, id), cfg.requiredLevels)
  }

  ghost predicate AllPublishable(cfg: Config, log: Log, events: seq<DepthEvent>) {
    forall i :: 0 <= i < |events| ==> ServerPublishable(cfg, log, events[i].last)
  }

  function LastOf<T>(items: seq<T>, k: nat): seq<T> {
    if |items| <= k then items else items[|items| - k..]
  }

  /** The event covers the id or continues from it. */
  predicate Reaches(e: DepthEvent, id: nat) {
    e.last >= id && (e.first <= id || e.previous == id)
  }

  /** A message waits while there is no mirror; otherwise it is old, or brings the mirror to its own end, or breaks
      the mirror and is the first to wait. */
  ghost function AfterMessage(cfg: Config, log: Log, l: Link, e: DepthEvent): Link {
    if l.at.None? then Link(None, LastOf(l.waiting + [e], cfg.maxBuffer))
    else if e.last < l.at.value then l
    else if Reaches(e, l.at.value) && ServerPublishable(cfg, log, e.last) then Link(Some(e.last), [])
    else Link(None, LastOf([e], cfg.maxBuffer))
  }

  /** A snapshot mirrors the server when what waits does not reach it, or reaches it and takes the mirror on. */
  ghost function AfterSnapshot(cfg: Config, log: Log, l: Link, id: nat): Link {
    if !ServerPublishable(cfg, log, id) then Link(None, l.waiting)
    else if forall e :: e in l.waiting ==> e.last < id then Link(Some(id), [])
    else if forall e :: e in l.waiting ==> !Reaches(e, id) then Link(None, Reaching(l.waiting, id))
    else if AllPublishable(cfg, log, Replayed(ToReplay(l.waiting, id), id))
    then Link(Some(ReplayedTo(ToReplay(l.waiting, id), id)), [])
    else Link(None, [])
  }

  ghost function AfterInput(cfg: Config, log: Log, l: Link, input: Input): Link {
    match input
    case Message(e, _) => AfterMessage(cfg, log, l, e)
    case Response(snap, _, _) => AfterSnapshot(cfg, log, l, snap.lastUpdateId)
    case Disconnected(_) => l.(at := None)
    case RequestRefused(_) => l.(at := None)
    case _ => l
  }

  ghost function Following(cfg: Config, inputs: seq<Input>): Link {
    if inputs == [] then Link(None, [])
    else
      var before := inputs[..|inputs| - 1];
      AfterInput(cfg, LogOf(before), Following(cfg, before), inputs[|inputs| - 1])
  }

  /** While there is a mirror nothing waits. */
  predicate Settled(l: Link) {
    l.at.Some? ==> l.waiting == []
  }

  lemma ValidIsPublishable(bids: Side, asks: Side, levels: int)
    ensures Valid(bids, asks, levels) <==> Publishable(bids, asks, levels)
  {
    if bids != map[] && asks != map[] {
      assert Best(bids, true) in bids && Best(asks, false) in asks;
    }
  }

  lemma UsableIsPublishable(cfg: Config, log: Log, events: seq<DepthEvent>)
    ensures AllUsable(cfg, log, events) <==> AllPublishable(cfg, log, events)
  {
    forall e: DepthEvent ensures Usable(cfg, log, e) <==> ServerPublishable(cfg, log, e.last) {
      if e.last <= |log.bids| && e.last <= |log.asks| {
        ValidIsPublishable(SideAt(log.bids, e.last), SideAt(log.asks, e.last), cfg.requiredLevels);
      }
    }
    if AllUsable(cfg, log, events) {
      forall i | 0 <= i < |events| ensures ServerPublishable(cfg, log, events[i].last) {
        assert Usable(cfg, log, events[i]);
      }
    }
    if AllPublishable(cfg, log, events) {
      forall i | 0 <= i < |events| ensures Usable(cfg, log, events[i]) {
        assert ServerPublishable(cfg, log, events[i].last);
      }
    }
  }

  lemma PushIsLastOf<T>(items: seq<T>, item: T, cap: nat)
    requires |items| <= cap
    ensures PushBounded(items, item, cap) == LastOf(items + [item], cap)
  {
  }

  /** Where the mirror stands after a message, and what waits. */
  lemma MessageFollows(cfg: Config, log: Log, s: BookState, e: DepthEvent, backoff: bool)
    requires Inv(cfg, log, s) && GenuineEvent(log, e) && Settled(LinkOf(s))
    ensures LinkOf(HandleMessage(cfg, s, e, backoff)) == AfterMessage(cfg, log, LinkOf(s), e)
  {
    PushIsLastOf(s.buffered, e, cfg.maxBuffer);
    PushIsLastOf([], e, cfg.maxBuffer);
    assert [] + [e] == [e];
    if s.synced {
      var id := s.lastUpdateId.value;
      ApplyKeeps(cfg, log, s, e, backoff);
      ValidIsPublishable(SideAt(log.bids, e.last), SideAt(log.asks, e.last), cfg.requiredLevels);
      if e.last >= id && Aligns(e, id) {
        AlignedEventExactly(cfg, log, s, e, backoff);
      }
    }
  }

  /** A replay leaves nothing waiting. */
  lemma {:induction false} ReplayKeepsBuffer(cfg: Config, s: BookState, events: seq<DepthEvent>, backoff: bool)
    ensures Replay(cfg, s, events, backoff).buffered == s.buffered
    decreases |events|
  {
    if events != [] {
      var (after, outcome) := Apply(cfg, s, events[0], backoff);
      if !Raises(outcome) {
        ReplayKeepsBuffer(cfg, after, events[1..], backoff);
      }
    }
  }

  lemma WaitingCases(events: seq<DepthEvent>, id: nat)
    ensures (forall e :: e in events ==> e.last < id) <==> NoneReaches(events, id)
    ensures (forall e :: e in events ==> !Reaches(e, id)) <==> !SomeAligns(events, id)
  {
    if NoneReaches(events, id) {
      forall e | e in events ensures e.last < id {
        var i :| 0 <= i < |events| && events[i] == e;
      }
    }
    if SomeAligns(events, id) {
      var i :| 0 <= i < |events| && events[i].last >= id && Aligns(events[i], id);
      assert events[i] in events && Reaches(events[i], id);
    } else {
      forall e | e in events ensures !Reaches(e, id) {
        var i :| 0 <= i < |events| && events[i] == e;
        assert !(events[i].last >= id && Aligns(events[i], id));
      }
    }
  }

  /** What a bootstrap leaves waiting. */
  lemma WaitingAfterBootstrap(cfg: Config, s: BookState, snap: Snapshot, nowMs: int, backoff: bool)
    ensures var s1, id := Installed(s, snap), snap.lastUpdateId;
            Bootstrap(cfg, s, snap, nowMs, backoff).buffered
            == if !Valid(s1.bids, s1.asks, cfg.requiredLevels) then s.buffered
               else if !NoneReaches(s.buffered, id) && !SomeAligns(s.buffered, id) then Reaching(s.buffered, id)
               else []
  {
    var s1, id := Measured(Installed(s, snap), nowMs), snap.lastUpdateId;
    ReachingAligned(s.buffered, id);
    ReplayKeepsBuffer(cfg, s1.(buffered := []), ToReplay(s.buffered, id), backoff);
  }

  /** The same cases as the abstract step tells them. */
  lemma AfterSnapshotCases(cfg: Config, log: Log, l: Link, id: nat)
    ensures AfterSnapshot(cfg, log, l, id)
            == if !ServerPublishable(cfg, log, id) then Link(None, l.waiting)
               else if NoneReaches(l.waiting, id) then Link(Some(id), [])
               else if !SomeAligns(l.waiting, id) then Link(None, Reaching(l.waiting, id))
               else if AllUsable(cfg, log, Replayed(ToReplay(l.waiting, id), id))
               then Link(Some(ReplayedTo(ToReplay(l.waiting, id), id)), [])
               else Link(None, [])
  {
    WaitingCases(l.waiting, id);
    UsableIsPublishable(cfg, log, Replayed(ToReplay(l.waiting, id), id));
  }

  lemma NothingToReplay(events: seq<DepthEvent>, id: nat)
    requires NoneReaches(events, id)
    ensures ReplayedTo(ToReplay(events, id), id) == id
  {
    ReachingAligned(events, id);
    assert ToReplay(events, id) == [];
  }

  lemma InstalledIsServer(cfg: Config, log: Log, s: BookState, snap: Snapshot)
    requires Inv(cfg, log, s) && GenuineSnapshot(log, snap)
    ensures var s1, id := Installed(s, snap), snap.lastUpdateId;
            Valid(s1.bids, s1.asks, cfg.requiredLevels) <==> ServerPublishable(cfg, log, id)
  {
    var id := snap.lastUpdateId;
    ValidIsPublishable(SideAt(log.bids, id), SideAt(log.asks, id), cfg.requiredLevels);
    InstallMirrors(cfg, log, s, snap, 0);
  }

  /** Where the mirror stands after a snapshot was answered, and what waits. */
  lemma SnapshotFollows(cfg: Config, log: Log, s: BookState, snap: Snapshot, nowMs: int, backoff: bool)
    requires Inv(cfg, log, s) && GenuineSnapshot(log, snap)
    ensures LinkOf(Bootstrap(cfg, s, snap, nowMs, backoff)) == AfterSnapshot(cfg, log, LinkOf(s), snap.lastUpdateId)
  {
    var id := snap.lastUpdateId;
    ValidIsPublishable(SideAt(log.bids, id), SideAt(log.asks, id), cfg.requiredLevels);
    BootstrapSyncsExactly(cfg, log, s, snap, nowMs, backoff);
    WaitingAfterBootstrap(cfg, s, snap, nowMs, backoff);
    AfterSnapshotCases(cfg, log, LinkOf(s), id);
    InstalledIsServer(cfg, log, s, snap);
    if NoneReaches(s.buffered, id) {
      NothingToReplay(s.buffered, id);
    }
  }

  lemma DisconnectFollows(s: BookState, backoff: bool)
    requires s.synced ==> s.lastUpdateId.Some?
    ensures LinkOf(Disconnect(s, backoff)) == LinkOf(s).(at := None)
  {
  }

  lemma StepFollows(cfg: Config, log: Log, s: BookState, input: Input)
    requires Inv(cfg, log, s) && Possible(log, input) && Settled(LinkOf(s))
    ensures LinkOf(Step(cfg, s, input)) == AfterInput(cfg, log, LinkOf(s), input)
  {
    match input
    case Message(e, backoff) => MessageFollows(cfg, log, s, e, backoff);
    case Response(snap, nowMs, backoff) => SnapshotFollows(cfg, log, s, snap, nowMs, backoff);
    case Disconnected(backoff) => DisconnectFollows(s, backoff);
    case _ =>
  }

  lemma StaysSettled(cfg: Config, log: Log, l: Link, input: Input)
    requires Settled(l)
    ensures Settled(AfterInput(cfg, log, l, input))
  {
  }

  /** Over every run the synchroniser is where the inputs and the server's books put it: which id it mirrors, if any,
      and which events wait. While it mirrors the server, none do. */
  lemma {:induction false} RunFollows(cfg: Config, inputs: seq<Input>)
    requires PossibleRun(inputs)
    ensures LinkOf(Run(cfg, inputs)) == Following(cfg, inputs) && Settled(Following(cfg, inputs))
  {
    if inputs != [] {
      var before := inputs[..|inputs| - 1];
      RunFollows(cfg, before);
      RunKeeps(cfg, before);
      StepFollows(cfg, LogOf(before), Run(cfg, before), inputs[|inputs| - 1]);
      StaysSettled(cfg, LogOf(before), Following(cfg, before), inputs[|inputs| - 1]);
    }
  }

  // ---------------------------------------------------------------- falling out of step, and back in

  /** A mirror is lost exactly on a disconnect, on a refused request, and on a message that is not old and either
      leaves ids out or ends on a book that cannot be published. */
  lemma MirrorIsLostExactly(cfg: Config, inputs: seq<Input>)
    requires PossibleRun(inputs) && inputs != [] && Run(cfg, inputs[..|inputs| - 1]).synced
    requires !inputs[|inputs| - 1].Response?
    ensures var log, s := LogOf(inputs[..|inputs| - 1]), Run(cfg, inputs[..|inputs| - 1]);
            var last := inputs[|inputs| - 1];
            s.lastUpdateId.Some? &&
            (!Run(cfg, inputs).synced <==>
               || last.Disconnected? || last.RequestRefused?
               || (last.Message? && last.e.last >= s.lastUpdateId.value
                   && !(Reaches(last.e, s.lastUpdateId.value) && ServerPublishable(cfg, log, last.e.last))))
  {
    RunFollows(cfg, inputs);
    RunFollows(cfg, inputs[..|inputs| - 1]);
    RunKeeps(cfg, inputs);
    RunKeeps(cfg, inputs[..|inputs| - 1]);
  }

  ghost predicate NoAnswer(inputs: seq<Input>, n: nat) {
    forall j :: n <= j < |inputs| ==> !inputs[j].Response?
  }

  lemma {:induction false} PossiblePrefix(inputs: seq<Input>, n: nat)
    requires PossibleRun(inputs) && n <= |inputs|
    ensures PossibleRun(inputs[..n])
  {
    if n < |inputs| {
      PossiblePrefix(inputs[..|inputs| - 1], n);
      assert inputs[..|inputs| - 1][..n] == inputs[..n];
    } else {
      assert inputs[..n] == inputs;
    }
  }

  /** The events of the messages from the n-th input on. */
  function Heard(inputs: seq<Input>, n: nat): seq<DepthEvent>
    decreases |inputs|
  {
    if |inputs| <= n then []
    else
      var last := inputs[|inputs| - 1];
      Heard(inputs[..|inputs| - 1], n) + if last.Message? then [last.e] else []
  }

  lemma LastOfTwice<T>(items: seq<T>, item: T, k: nat)
    ensures LastOf(LastOf(items, k) + [item], k) == LastOf(items + [item], k)
  {
  }

  /** Without an answer there is no mirror, and the last events heard wait, in order. */
  lemma {:induction false} Waits(cfg: Config, inputs: seq<Input>, n: nat)
    requires n <= |inputs| && NoAnswer(inputs, n) && Following(cfg, inputs[..n]).at.None?
    requires |Following(cfg, inputs[..n]).waiting| <= cfg.maxBuffer
    ensures Following(cfg, inputs)
            == Link(None, LastOf(Following(cfg, inputs[..n]).waiting + Heard(inputs, n), cfg.maxBuffer))
    decreases |inputs|
  {
    var kept := Following(cfg, inputs[..n]).waiting;
    if n < |inputs| {
      var before, last := inputs[..|inputs| - 1], inputs[|inputs| - 1];
      assert before[..n] == inputs[..n];
      Waits(cfg, before, n);
      if last.Message? {
        LastOfTwice(kept + Heard(before, n), last.e, cfg.maxBuffer);
        assert kept + Heard(before, n) + [last.e] == kept + Heard(inputs, n);
      } else {
        assert Heard(inputs, n) == Heard(before, n);
      }
    } else {
      assert inputs[..n] == inputs && kept + [] == kept;
    }
  }

  /** Once out of step, whatever arrives, nothing is published and "synced" is not reported until a snapshot request
      is answered. */
  lemma SilentUntilAnswered(cfg: Config, inputs: seq<Input>, n: nat, backoff: bool, quiet: bool)
    requires PossibleRun(inputs) && n <= |inputs| && NoAnswer(inputs, n)
    requires !Run(cfg, inputs[..n]).synced || (n > 0 && (inputs[n - 1].Disconnected? || inputs[n - 1].RequestRefused?))
    ensures !Run(cfg, inputs).synced && Publish(cfg, Run(cfg, inputs)).None?
    ensures ReportedState(Run(cfg, inputs), backoff, quiet) != Synced
  {
    PossiblePrefix(inputs, n);
    RunFollows(cfg, inputs[..n]);
    RunFollows(cfg, inputs);
    RunKeeps(cfg, inputs[..n]);
    RunKeeps(cfg, inputs);
    if n > 0 && (inputs[n - 1].Disconnected? || inputs[n - 1].RequestRefused?) {
      assert inputs[..n][n - 1] == inputs[n - 1];
    }
    Waits(cfg, inputs, n);
  }

  /** Recovery. A mirror was lost after n inputs, and from then on the messages lost nothing: each event heard
      continues the one before it, and their books can be published. The next answered snapshot brings the mirror
      back exactly when nothing heard reaches it or something heard does and aligns, and the book is then the
      server's at the end of the last event heard, or at the snapshot if that is later. */
  lemma AnswerRecovers(cfg: Config, inputs: seq<Input>, n: nat)
    requires PossibleRun(inputs) && n < |inputs| && inputs[|inputs| - 1].Response?
    requires NoAnswer(inputs[..|inputs| - 1], n)
    requires !Run(cfg, inputs[..n]).synced && Run(cfg, inputs[..n]).buffered == []
    requires |Heard(inputs, n)| <= cfg.maxBuffer && Chained(Heard(inputs, n))
    requires AllPublishable(cfg, LogOf(inputs), Heard(inputs, n))
    requires ServerPublishable(cfg, LogOf(inputs), inputs[|inputs| - 1].snap.lastUpdateId)
    ensures var s, log := Run(cfg, inputs), LogOf(inputs);
            var heard, id := Heard(inputs, n), inputs[|inputs| - 1].snap.lastUpdateId;
            var to := CaughtUp(heard, id);
            && (s.synced <==> (forall e :: e in heard ==> e.last < id) || exists e :: e in heard && Reaches(e, id))
            && (s.synced ==> to <= |log.bids| && to <= |log.asks|
                             && s.bids == SideAt(log.bids, to) && s.asks == SideAt(log.asks, to))
  {
    var before := inputs[..|inputs| - 1];
    var heard, id, log := Heard(inputs, n), inputs[|inputs| - 1].snap.lastUpdateId, LogOf(inputs);
    assert Heard(inputs, n) == Heard(before, n) && LogOf(before) == log && before[..n] == inputs[..n];
    PossiblePrefix(inputs, n);
    RunFollows(cfg, inputs[..n]);
    RunFollows(cfg, inputs);
    RunKeeps(cfg, inputs);
    Waits(cfg, before, n);
    assert [] + heard == heard;
    UsableIsPublishable(cfg, log, heard);
    ChainCatchesUp(cfg, log, heard, id);
    AfterSnapshotCases(cfg, log, Link(None, heard), id);
    WaitingCases(heard, id);
    if NoneReaches(heard, id) {
      NothingToReplay(heard, id);
    }
  }

  // ---------------------------------------------------------------- what is reported

  /** The sync state agrees with the mirror. */
  predicate PhaseFits(s: BookState) {
    if s.synced then s.syncState == Synced || s.syncState == Bootstrapping else s.syncState != Synced
  }

  lemma ApplyFits(cfg: Config, s: BookState, e: DepthEvent, backoff: bool)
    requires PhaseFits(s)
    ensures PhaseFits(Apply(cfg, s, e, backoff).0)
  {
  }

  lemma {:induction false} ReplayFits(cfg: Config, s: BookState, events: seq<DepthEvent>, backoff: bool)
    requires PhaseFits(s)
    ensures PhaseFits(Replay(cfg, s, events, backoff))
    decreases |events|
  {
    if events != [] {
      ApplyFits(cfg, s, events[0], backoff);
      if !Raises(Apply(cfg, s, events[0], backoff).1) {
        ReplayFits(cfg, Apply(cfg, s, events[0], backoff).0, events[1..], backoff);
      }
    }
  }

  lemma StepFits(cfg: Config, s: BookState, input: Input)
    requires PhaseFits(s)
    ensures PhaseFits(Step(cfg, s, input))
  {
    match input
    case Message(e, backoff) => ApplyFits(cfg, s, e, backoff);
    case Response(snap, nowMs, backoff) =>
      var s1 := Measured(Installed(s, snap), nowMs);
      ReplayFits(cfg, s1.(buffered := []), ToReplay(s.buffered, snap.lastUpdateId), backoff);
    case _ =>
  }

  lemma {:induction false} RunFits(cfg: Config, inputs: seq<Input>)
    ensures PhaseFits(Run(cfg, inputs))
  {
    if inputs != [] {
      RunFits(cfg, inputs[..|inputs| - 1]);
      StepFits(cfg, Run(cfg, inputs[..|inputs| - 1]), inputs[|inputs| - 1]);
    }
  }

  /** "Synced" is reported exactly when a mirror stands, no request is under way, no backoff runs and the stream is not
      quiet. */
  lemma ReportedSyncedExactly(cfg: Config, inputs: seq<Input>, backoff: bool, quiet: bool)
    requires PossibleRun(inputs)
    ensures var s := Run(cfg, inputs);
            ReportedState(s, backoff, quiet) == Synced
            <==> Following(cfg, inputs).at.Some? && s.syncState != Bootstrapping && !backoff && !quiet
  {
    RunFits(cfg, inputs);
    RunFollows(cfg, inputs);
    RunKeeps(cfg, inputs);
  }

  /** The resync waits for the backoff, or for its turn. */
  predicate InLine(s: BookState, backoff: bool, quiet: bool) {
    ReportedState(s, backoff, quiet) == if backoff then Backoff else ResyncPending
  }

  lemma RescheduledIsInLine(s: BookState, backoff: bool, quiet: bool)
    requires s.syncState == Rescheduled(backoff) && !s.synced && s.lastUpdateId.Some?
    ensures InLine(s, backoff, quiet)
  {
  }

  lemma LosingMessage(cfg: Config, log: Log, s: BookState, e: DepthEvent, backoff: bool)
    requires Inv(cfg, log, s) && s.synced && !HandleMessage(cfg, s, e, backoff).synced
    ensures var after := HandleMessage(cfg, s, e, backoff);
            after.syncState == Rescheduled(backoff) && after.lastUpdateId.Some?
  {
  }

  /** When the mirror is lost, what is reported next is that the resync waits for the backoff, or for its turn. */
  lemma LostMirrorIsRescheduled(cfg: Config, inputs: seq<Input>, quiet: bool)
    requires PossibleRun(inputs) && inputs != []
    requires Run(cfg, inputs[..|inputs| - 1]).synced && !Run(cfg, inputs).synced
    ensures var s := Run(cfg, inputs);
            var last := inputs[|inputs| - 1];
            && (last.RequestRefused? ==> s.syncState == if last.rateLimited then Backoff else ResyncPending)
            && (last.Message? || last.Disconnected? ==> InLine(s, last.backoff, quiet))
  {
    var before, last := Run(cfg, inputs[..|inputs| - 1]), inputs[|inputs| - 1];
    RunKeeps(cfg, inputs[..|inputs| - 1]);
    if last.Message? {
      LosingMessage(cfg, LogOf(inputs[..|inputs| - 1]), before, last.e, last.backoff);
      RescheduledIsInLine(Run(cfg, inputs), last.backoff, quiet);
    } else if last.Disconnected? {
      RescheduledIsInLine(Run(cfg, inputs), last.backoff, quiet);
    }
  }

  /** A disconnect leaves a book alone that heard nothing yet and never had a snapshot; any other it puts in line for a
      resync, mirror or not. */
  lemma DisconnectReschedules(cfg: Config, inputs: seq<Input>, quiet: bool)
    requires PossibleRun(inputs) && inputs != [] && inputs[|inputs| - 1].Disconnected?
    ensures var s, before, backoff := Run(cfg, inputs), Run(cfg, inputs[..|inputs| - 1]), inputs[|inputs| - 1].backoff;
            if before.lastUpdateId == None && before.buffered == [] then s == before
            else InLine(s, backoff, quiet)
  {
  }
}
