/** What order blocks are and when they end, told from candles, events and settings alone. */
module OrderBlockLaws {
  import opened Options
  import opened Sides
  import MS = MarketStructure
  import opened OrderBlocks

  // ---------------------------------------------------------------- how a block is built

  /** The first of the bars from lo to hi that go furthest against the side. */
  ghost predicate IsAnchor(side: Side, bars: seq<Bar>, lo: int, hi: int, at: int) {
    && 0 <= lo <= at <= hi < |bars|
    && match side
       case Long => (forall j :: lo <= j <= hi ==> bars[at].low <= bars[j].low)
                    && forall j :: lo <= j < at ==> bars[at].low < bars[j].low
       case Short => (forall j :: lo <= j <= hi ==> bars[at].high >= bars[j].high)
                     && forall j :: lo <= j < at ==> bars[at].high > bars[j].high
  }

  /** The edge toward the market: the far end of the anchor, the mean of its four prices, or its middle. */
  predicate IsEdge(edge: real, end: real, anchor: Bar, position: Position) {
    match position
    case Full => edge == end
    case Middle => 4.0 * edge == anchor.open + anchor.high + anchor.low + anchor.close
    case Precise => 2.0 * edge == anchor.high + anchor.low
  }

  ghost predicate BuiltFrom(z: Zone, anchor: Bar, position: Position) {
    && (if z.side == Long then z.bottom == anchor.low && IsEdge(z.top, anchor.high, anchor, position)
        else z.top == anchor.high && IsEdge(z.bottom, anchor.low, anchor, position))
    && 2.0 * z.midpoint == z.top + z.bottom && z.anchorVolume == anchor.volume
  }

  /** The block of an event: from the furthest bar between the broken pivot and the break. */
  lemma ZoneIsBuilt(bars: seq<Bar>, e: MS.Event, cfg: Config)
    requires 0 <= e.index < |bars| && 0 <= e.pivotIndex
    ensures var z := ZoneOf(bars, e, cfg);
            && z.createdIndex == e.index && z.scope == e.scope && z.side == e.side
            && IsAnchor(e.side, bars, if e.pivotIndex <= e.index then e.pivotIndex else e.index, e.index, z.anchorIndex)
            && BuiltFrom(z, bars[z.anchorIndex], cfg.position)
  {
  }

  /** The events whose kind the settings ask for, in order. */
  function Chosen(events: seq<MS.Event>, cfg: Config): seq<MS.Event> {
    if events == [] then []
    else
      var e := events[|events| - 1];
      Chosen(events[..|events| - 1], cfg) + if cfg.filterKind == None || cfg.filterKind == Some(e.kind) then [e] else []
  }

  ghost predicate InBarOrder(events: seq<MS.Event>) {
    forall j, k :: 0 <= j < k < |events| ==> events[j].index <= events[k].index
  }

  lemma {:induction false} ChosenAreEvents(events: seq<MS.Event>, cfg: Config)
    ensures forall e :: e in Chosen(events, cfg) ==> e in events
  {
    if events != [] {
      ChosenAreEvents(events[..|events| - 1], cfg);
    }
  }

  ghost function ZonesOfAll(bars: seq<Bar>, events: seq<MS.Event>, cfg: Config): (r: seq<Zone>)
    requires InFrame(events, bars)
    ensures |r| == |events|
  {
    seq(|events|, k requires 0 <= k < |events| => ZoneOf(bars, events[k], cfg))
  }

  lemma {:induction false} NoneAdmitted(events: seq<MS.Event>, cfg: Config, i: int)
    requires forall e :: e in events ==> e.index != i
    ensures Admitted(events, cfg, i) == []
  {
    if events != [] {
      NoneAdmitted(events[..|events| - 1], cfg, i);
    }
  }

  lemma AdmittedAppend(events: seq<MS.Event>, e: MS.Event, cfg: Config, i: int)
    ensures Admitted(events + [e], cfg, i)
            == Admitted(events, cfg, i)
               + if e.index == i && (cfg.filterKind.None? || e.kind == cfg.filterKind.value) then [e] else []
  {
    assert (events + [e])[..|events|] == events;
  }

  /** The block of one event, if it is of the kind asked for. */
  ghost function OwnZone(bars: seq<Bar>, e: MS.Event, cfg: Config): seq<Zone>
    requires 0 <= e.index < |bars| && 0 <= e.pivotIndex
  {
    if cfg.filterKind == None || cfg.filterKind == Some(e.kind) then [ZoneOf(bars, e, cfg)] else []
  }

  lemma ZonesOfAppend(bars: seq<Bar>, events: seq<MS.Event>, e: MS.Event, cfg: Config, i: int)
    requires InFrame(events + [e], bars) && InFrame(events, bars)
    requires forall x :: x in events ==> x.index <= e.index
    ensures ZonesOf(bars, events + [e], cfg, i)
            == ZonesOf(bars, events, cfg, i) + if e.index == i then OwnZone(bars, e, cfg) else []
    ensures i > e.index ==> ZonesOf(bars, events, cfg, i) == []
  {
    AdmittedAppend(events, e, cfg, i);
    if i > e.index {
      NoneAdmitted(events, cfg, i);
    }
  }

  ghost predicate LaterAdds(bars: seq<Bar>, events: seq<MS.Event>, more: seq<MS.Event>, own: seq<Zone>, at: int,
      cfg: Config, n: nat)
    requires InFrame(events, bars) && InFrame(more, bars)
  {
    ZonesBefore(bars, more, cfg, n) == ZonesBefore(bars, events, cfg, n) + if at < n then own else []
  }

  lemma LaterAddsNext(bars: seq<Bar>, events: seq<MS.Event>, more: seq<MS.Event>, own: seq<Zone>, at: int, cfg: Config,
      i: nat)
    requires InFrame(events, bars) && InFrame(more, bars) && LaterAdds(bars, events, more, own, at, cfg, i)
    requires ZonesOf(bars, more, cfg, i) == ZonesOf(bars, events, cfg, i) + if at == i then own else []
    requires i > at ==> ZonesOf(bars, events, cfg, i) == []
    ensures LaterAdds(bars, events, more, own, at, cfg, i + 1)
  {
    var a, z := ZonesBefore(bars, events, cfg, i), ZonesOf(bars, events, cfg, i);
    assert a + [] == a && z + [] == z && (a + own) + [] == a + own && (a + z) + own == a + (z + own);
  }

  lemma ZonesBeforeNext(bars: seq<Bar>, events: seq<MS.Event>, more: seq<MS.Event>, e: MS.Event, cfg: Config, i: nat)
    requires InFrame(more, bars) && InFrame(events, bars) && more == events + [e] && e in more
    requires forall x :: x in events ==> x.index <= e.index
    requires LaterAdds(bars, events, more, OwnZone(bars, e, cfg), e.index, cfg, i)
    ensures LaterAdds(bars, events, more, OwnZone(bars, e, cfg), e.index, cfg, i + 1)
  {
    ZonesOfAppend(bars, events, e, cfg, i);
    LaterAddsNext(bars, events, more, OwnZone(bars, e, cfg), e.index, cfg, i);
  }

  lemma ZonesBeforeAppend(bars: seq<Bar>, events: seq<MS.Event>, more: seq<MS.Event>, e: MS.Event, cfg: Config, n: nat)
    requires InFrame(more, bars) && InFrame(events, bars) && more == events + [e] && e in more
    requires forall x :: x in events ==> x.index <= e.index
    ensures LaterAdds(bars, events, more, OwnZone(bars, e, cfg), e.index, cfg, n)
  {
    for i := 0 to n
      invariant LaterAdds(bars, events, more, OwnZone(bars, e, cfg), e.index, cfg, i)
    {
      ZonesBeforeNext(bars, events, more, e, cfg, i);
    }
  }

  lemma NoZones(bars: seq<Bar>, cfg: Config, n: nat)
    ensures ZonesBefore(bars, [], cfg, n) == []
  {
    for i := 0 to n
      invariant ZonesBefore(bars, [], cfg, i) == []
    {
      assert Admitted([], cfg, i) == [];
    }
  }

  lemma ZonesOfAllAppend(bars: seq<Bar>, events: seq<MS.Event>, e: MS.Event, cfg: Config)
    requires InFrame(events, bars) && InFrame([e], bars)
    ensures InFrame(events + [e], bars)
    ensures ZonesOfAll(bars, events + [e], cfg) == ZonesOfAll(bars, events, cfg) + [ZoneOf(bars, e, cfg)]
  {
    assert e in [e];
  }

  /** With events in the order of their bars there is one block for every event of the kind asked for, in that order. */
  lemma {:induction false} ZonesAreOfChosen(bars: seq<Bar>, events: seq<MS.Event>, cfg: Config)
    requires InFrame(events, bars) && InBarOrder(events)
    ensures InFrame(Chosen(events, cfg), bars)
    ensures ZonesBefore(bars, events, cfg, |bars|) == ZonesOfAll(bars, Chosen(events, cfg), cfg)
  {
    ChosenAreEvents(events, cfg);
    if events == [] {
      NoZones(bars, cfg, |bars|);
    } else {
      var init, e := events[..|events| - 1], events[|events| - 1];
      assert events == init + [e];
      assert e in events;
      ZonesAreOfChosen(bars, init, cfg);
      ZonesBeforeAppend(bars, init, events, e, cfg, |bars|);
      if Chosen(events, cfg) != Chosen(init, cfg) {
        assert InFrame([e], bars);
        ZonesOfAllAppend(bars, Chosen(init, cfg), e, cfg);
      }
    }
  }

  // ---------------------------------------------------------------- when a block ends

  /** The close lies beyond the block, or beyond its middle when that is asked for. */
  predicate Through(z: Zone, close: real, middle: bool) {
    match z.side
    case Long => if middle then close < z.midpoint else close < z.bottom
    case Short => if middle then close > z.midpoint else close > z.top
  }

  /** Two blocks of one side and scope whose ranges meet in more than an edge. */
  predicate Meet(a: Zone, b: Zone) {
    a.side == b.side && a.scope == b.scope && a.bottom < b.top && b.bottom < a.top
  }

  /** No close from the block's own bar up to another lies beyond it. */
  ghost predicate Stands(z: Zone, bars: seq<Bar>, middle: bool, upTo: int) {
    forall j :: z.createdIndex <= j < upTo && 0 <= j < |bars| ==> !Through(z, bars[j].close, middle)
  }

  /** Where the newer of two meeting blocks gives way: it meets an earlier block that did not and still stands. */
  ghost predicate TurnedAway(k: nat, zones: seq<Zone>, bars: seq<Bar>, middle: bool)
    requires k < |zones|
  {
    exists c: nat :: c < k && Meet(zones[c], zones[k]) && !TurnedAway(c, zones, bars, middle)
                     && Stands(zones[c], bars, middle, zones[k].createdIndex)
  }

  /** What ends block k on bar m: a close beyond it, or, under the overlap rule, giving way to an earlier block when
      it is built, or to a later one built on bar m. */
  ghost predicate GivesWay(k: nat, m: int, zones: seq<Zone>, bars: seq<Bar>, cfg: Config)
    requires k < |zones|
  {
    cfg.overlap && match cfg.overlapMethod
                   case Recent => m == zones[k].createdIndex && TurnedAway(k, zones, bars, cfg.middleMitigation)
                   case Previous =>
                     exists c: nat :: k < c < |zones| && zones[c].createdIndex == m && Meet(zones[k], zones[c])
  }

  ghost predicate EndsOn(k: nat, m: int, zones: seq<Zone>, bars: seq<Bar>, cfg: Config)
    requires k < |zones|
  {
    (0 <= m < |bars| && Through(zones[k], bars[m].close, cfg.middleMitigation)) || GivesWay(k, m, zones, bars, cfg)
  }

  lemma ThroughIsMitigates(z: Zone, bar: Bar, cfg: Config)
    ensures Through(z, bar.close, cfg.middleMitigation) == Mitigates(z, bar, cfg)
  {
  }

  lemma MeetIsRivals(a: Zone, b: Zone)
    ensures Meet(a, b) == Rivals(a, b)
  {
  }

  lemma StandsIsUnbroken(z: Zone, bars: seq<Bar>, cfg: Config, upTo: int)
    ensures Stands(z, bars, cfg.middleMitigation, upTo) == Unbroken(z, bars, cfg, upTo)
  {
    forall bar: Bar ensures Through(z, bar.close, cfg.middleMitigation) == Mitigates(z, bar, cfg) {
      ThroughIsMitigates(z, bar, cfg);
    }
  }

  lemma {:induction false} TurnedAwayIsRefused(k: nat, zones: seq<Zone>, bars: seq<Bar>, cfg: Config)
    requires k < |zones|
    ensures TurnedAway(k, zones, bars, cfg.middleMitigation) == Refused(k, zones, bars, cfg)
  {
    forall c: nat | c < k
      ensures TurnedAway(c, zones, bars, cfg.middleMitigation) == Refused(c, zones, bars, cfg)
      ensures Meet(zones[c], zones[k]) == Rivals(zones[c], zones[k])
      ensures Stands(zones[c], bars, cfg.middleMitigation, zones[k].createdIndex)
              == Unbroken(zones[c], bars, cfg, zones[k].createdIndex)
    {
      TurnedAwayIsRefused(c, zones, bars, cfg);
      MeetIsRivals(zones[c], zones[k]);
      StandsIsUnbroken(zones[c], bars, cfg, zones[k].createdIndex);
    }
  }

  lemma EndsOnIsEndsAt(k: nat, m: int, zones: seq<Zone>, bars: seq<Bar>, cfg: Config)
    requires k < |zones|
    ensures EndsOn(k, m, zones, bars, cfg) == EndsAt(k, m, bars, zones, cfg, |bars|)
  {
    TurnedAwayIsRefused(k, zones, bars, cfg);
    if 0 <= m < |bars| {
      ThroughIsMitigates(zones[k], bars[m], cfg);
    }
    forall c: nat | c < |zones| ensures Meet(zones[k], zones[c]) == Rivals(zones[k], zones[c]) {
      MeetIsRivals(zones[k], zones[c]);
    }
  }

  /** After the whole frame every block ended on the first bar, from its own on, that ends it; and not at all if none
      does. */
  lemma BlocksEndFirst(bars: seq<Bar>, zones: seq<Zone>, ends: Ends, cfg: Config, k: nat, m: int)
    requires Fates(ends, bars, zones, cfg, |bars|) && k < |zones|
    ensures ends[k] == Some(m) <==>
            && zones[k].createdIndex <= m && EndsOn(k, m, zones, bars, cfg)
            && forall j :: zones[k].createdIndex <= j < m ==> !EndsOn(k, j, zones, bars, cfg)
  {
    assert Fate(k, ends[k], bars, zones, cfg, |bars|);
    forall j: int ensures EndsOn(k, j, zones, bars, cfg) == EndsAt(k, j, bars, zones, cfg, |bars|) {
      EndsOnIsEndsAt(k, j, zones, bars, cfg);
    }
  }

  // ---------------------------------------------------------------- snapshots, touches and shares

  lemma {:induction false} AliveMembers(zones: seq<Zone>, ends: Ends, i: int, n: nat)
    requires n <= |zones| == |ends|
    ensures forall k :: k in AliveAt(zones, ends, i, n)
                        <==> 0 <= k < n && zones[k].createdIndex <= i && (ends[k].None? || i < ends[k].value)
    ensures forall a, b :: 0 <= a < b < |AliveAt(zones, ends, i, n)|
                           ==> AliveAt(zones, ends, i, n)[a] < AliveAt(zones, ends, i, n)[b]
  {
    if n > 0 {
      AliveMembers(zones, ends, i, n - 1);
      var before := AliveAt(zones, ends, i, n - 1);
      assert forall a :: 0 <= a < |before| ==> before[a] in before;
    }
  }

  /** Some price lies both in the bar and in the block. */
  ghost predicate InBoth(price: real, z: Zone, bar: Bar) {
    bar.low <= price <= bar.high && z.bottom <= price <= z.top
  }

  /** A bar touches a block exactly when they have a price in common. */
  lemma TouchIsCommonPrice(z: Zone, bar: Bar)
    requires bar.low <= bar.high && z.bottom <= z.top
    ensures Touches(z, bar) <==> exists price :: InBoth(price, z, bar)
  {
    if Touches(z, bar) {
      assert InBoth(if bar.low >= z.bottom then bar.low else z.bottom, z, bar);
    }
  }

  /** The shares of the listed blocks, as `_recalculate_relevance` sets them. */
  function SharesOf(zones: seq<Zone>, ids: seq<nat>, total: real): real
    requires Below(ids, |zones|)
  {
    if ids == [] then 0.0
    else SharesOf(zones, ids[..|ids| - 1], total) + Share(zones[ids[|ids| - 1]].anchorVolume, total)
  }

  lemma ShareTimes(volume: real, total: real)
    requires total != 0.0
    ensures Share(volume, total) * total == 100.0 * volume
  {
    var part := volume / total;
    assert part * total == volume;
    assert (part * 100.0) * total == 100.0 * (part * total);
  }

  lemma {:induction false} SharesTimes(zones: seq<Zone>, ids: seq<nat>, total: real)
    requires Below(ids, |zones|) && total != 0.0
    ensures SharesOf(zones, ids, total) * total == 100.0 * ListedVolume(zones, ids)
  {
    if ids != [] {
      var last := zones[ids[|ids| - 1]].anchorVolume;
      SharesTimes(zones, ids[..|ids| - 1], total);
      ShareTimes(last, total);
      TimesSum(SharesOf(zones, ids[..|ids| - 1], total), Share(last, total), total);
    } else {
      assert 0.0 * total == 0.0;
    }
  }

  lemma TimesSum(x: real, y: real, total: real)
    ensures (x + y) * total == x * total + y * total
  {
  }

  lemma SameFactor(x: real, y: real, total: real)
    requires total != 0.0 && x * total == y * total
    ensures x == y
  {
  }

  /** The relevances of the listed blocks are to one another as the volumes of their anchors, and add up to a
      hundred. */
  lemma SharesAddUp(zones: seq<Zone>, ids: seq<nat>, k: nat)
    requires Below(ids, |zones|) && k < |zones|
    ensures var total, volume := ListedVolume(zones, ids), zones[k].anchorVolume;
            && Share(volume, total) * (if total == 0.0 then 1.0 else total) == 100.0 * volume
            && (total != 0.0 ==> SharesOf(zones, ids, total) == 100.0)
  {
    var total := ListedVolume(zones, ids);
    if total != 0.0 {
      ShareTimes(zones[k].anchorVolume, total);
      SharesTimes(zones, ids, total);
      SameFactor(SharesOf(zones, ids, total), 100.0, total);
    }
  }
}
