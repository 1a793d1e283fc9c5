/** Order blocks: built from structure events, retired by closes or by overlapping blocks, and
    recorded bar by bar. */
module OrderBlocks {
  import opened Options
  import opened Sides
  import MS = MarketStructure

  datatype Bar = Bar(open: real, high: real, low: real, close: real, volume: real)

  datatype Position = Full | Middle | Precise
  datatype OverlapMethod = Recent | Previous
  datatype Config = Config(filterKind: Option<MS.Kind>, overlap: bool, overlapMethod: OverlapMethod,
                           middleMitigation: bool, position: Position)

  /** What is fixed about a block when it is built. */
  datatype Zone = Zone(createdIndex: int, scope: MS.Scope, side: Side, top: real, bottom: real,
                       midpoint: real, anchorIndex: int, anchorVolume: real)

  function FirstLowest(bars: seq<Bar>, lo: nat, hi: nat): (i: nat)
    requires lo < hi <= |bars|
    ensures lo <= i < hi
    ensures forall j :: lo <= j < hi ==> bars[i].low <= bars[j].low
    ensures forall j :: lo <= j < i ==> bars[i].low < bars[j].low
  {
    if lo + 1 == hi then lo
    else
      var i := FirstLowest(bars, lo, hi - 1);
      if bars[hi - 1].low < bars[i].low then hi - 1 else i
  }

  function FirstHighest(bars: seq<Bar>, lo: nat, hi: nat): (i: nat)
    requires lo < hi <= |bars|
    ensures lo <= i < hi
    ensures forall j :: lo <= j < hi ==> bars[i].high >= bars[j].high
    ensures forall j :: lo <= j < i ==> bars[i].high > bars[j].high
  {
    if lo + 1 == hi then lo
    else
      var i := FirstHighest(bars, lo, hi - 1);
      if bars[hi - 1].high > bars[i].high then hi - 1 else i
  }

  function FarEdge(anchor: Bar, position: Position, full: real): real {
    match position
    case Full => full
    case Middle => (anchor.open + anchor.high + anchor.low + anchor.close) / 4.0
    case Precise => (anchor.high + anchor.low) / 2.0
  }

  /** `_build_block`: the zone from the segment's extreme bar. A pivot after the event leaves the
      segment empty, and then the event's own bar stands for it. */
  function ZoneOf(bars: seq<Bar>, e: MS.Event, cfg: Config): Zone
    requires 0 <= e.index < |bars| && 0 <= e.pivotIndex
  {
    var lo := if e.pivotIndex <= e.index then e.pivotIndex else e.index;
    if e.side == Long then
      var at := FirstLowest(bars, lo, e.index + 1);
      var top := FarEdge(bars[at], cfg.position, bars[at].high);
      Zone(e.index, e.scope, e.side, top, bars[at].low, (top + bars[at].low) / 2.0, at, bars[at].volume)
    else
      var at := FirstHighest(bars, lo, e.index + 1);
      var bottom := FarEdge(bars[at], cfg.position, bars[at].low);
      Zone(e.index, e.scope, e.side, bars[at].high, bottom, (bars[at].high + bottom) / 2.0, at, bars[at].volume)
  }

  predicate Overlaps(a: Zone, b: Zone) {
    a.bottom < b.top && a.top > b.bottom
  }

  /** Blocks that may displace one another. */
  predicate Rivals(a: Zone, b: Zone) {
    a.side == b.side && a.scope == b.scope && Overlaps(a, b)
  }

  /** `_is_mitigated`. */
  predicate Mitigates(z: Zone, bar: Bar, cfg: Config) {
    var trigger := if cfg.middleMitigation then z.midpoint else if z.side == Long then z.bottom else z.top;
    if z.side == Long then bar.close < trigger else bar.close > trigger
  }

  /** `_touches_block`. */
  predicate Touches(z: Zone, bar: Bar) {
    bar.high >= z.bottom && bar.low <= z.top
  }

  /** Bar indices at which blocks ended; None while a block is active. */
  type Ends = seq<Option<int>>

  /** The blocks, named by creation order, that are active among the first n. */
  function ActiveUpTo(ends: Ends, n: nat): seq<nat>
    requires n <= |ends|
  {
    if n == 0 then [] else ActiveUpTo(ends, n - 1) + if ends[n - 1].None? then [n - 1] else []
  }

  predicate Below(ids: seq<nat>, n: nat) {
    forall j :: 0 <= j < |ids| ==> ids[j] < n
  }

  /** The listed blocks that are still active. */
  function StillActive(ids: seq<nat>, ends: Ends): (r: seq<nat>)
    requires Below(ids, |ends|)
  {
    if ids == [] then []
    else StillActive(ids[..|ids| - 1], ends) + if ends[ids[|ids| - 1]].None? then [ids[|ids| - 1]] else []
  }

  predicate Alive(z: Zone, end: Option<int>, i: int) {
    z.createdIndex <= i && (end.None? || end.value > i)
  }

  /** The blocks created by bar i and not mitigated by it, in creation order. */
  function AliveAt(zones: seq<Zone>, ends: Ends, i: int, n: nat): seq<nat>
    requires n <= |zones| == |ends|
  {
    if n == 0 then []
    else AliveAt(zones, ends, i, n - 1) + if Alive(zones[n - 1], ends[n - 1], i) then [n - 1] else []
  }

  /** No two different blocks in the list are rivals. */
  ghost predicate Apart(ids: seq<nat>, zones: seq<Zone>) {
    forall a, b :: a in ids && b in ids && a != b && a < |zones| && b < |zones| ==> !Rivals(zones[a], zones[b])
  }

  /** No two different active blocks are rivals. */
  ghost predicate ActiveApart(ends: Ends, zones: seq<Zone>) {
    |ends| == |zones| &&
    forall a, b :: 0 <= a < b < |zones| && ends[a].None? && ends[b].None? ==> !Rivals(zones[a], zones[b])
  }

  /** No bar from the block's own up to `upTo` closes through it. */
  ghost predicate Unbroken(z: Zone, bars: seq<Bar>, cfg: Config, upTo: int) {
    forall j :: 0 <= j < |bars| && z.createdIndex <= j < upTo ==> !Mitigates(z, bars[j], cfg)
  }

  /** Under "Recent" a new block is refused when a rival still stands: an earlier block that was itself
      let in and that no earlier bar closed through. */
  ghost predicate Refused(k: nat, zones: seq<Zone>, bars: seq<Bar>, cfg: Config)
    requires k < |zones|
  {
    exists c: nat :: c < k && Rivals(zones[c], zones[k]) && !Refused(c, zones, bars, cfg)
                     && Unbroken(zones[c], bars, cfg, zones[k].createdIndex)
  }

  /** Under "Previous" a block is replaced when a later rival is built. */
  ghost predicate Replaced(k: nat, m: int, zones: seq<Zone>)
    requires k < |zones|
  {
    exists c: nat :: k < c < |zones| && zones[c].createdIndex == m && Rivals(zones[k], zones[c])
  }

  ghost predicate Displaced(k: nat, m: int, zones: seq<Zone>, bars: seq<Bar>, cfg: Config)
    requires k < |zones|
  {
    cfg.overlap && match cfg.overlapMethod
                   case Recent => m == zones[k].createdIndex && Refused(k, zones, bars, cfg)
                   case Previous => Replaced(k, m, zones)
  }

  /** Bar m, of the n closed ones, closes through block k, or displaces it. */
  ghost predicate EndsAt(k: nat, m: int, bars: seq<Bar>, zones: seq<Zone>, cfg: Config, n: int)
    requires k < |zones|
  {
    (0 <= m < n && m < |bars| && Mitigates(zones[k], bars[m], cfg)) || Displaced(k, m, zones, bars, cfg)
  }

  /** When block k ended: at the first bar that ends it, and not at all if none does. */
  ghost predicate Fate(k: nat, end: Option<int>, bars: seq<Bar>, zones: seq<Zone>, cfg: Config, n: int)
    requires k < |zones|
  {
    && (end.None? ==> forall j :: zones[k].createdIndex <= j ==> !EndsAt(k, j, bars, zones, cfg, n))
    && (end.Some? ==>
          && zones[k].createdIndex <= end.value && EndsAt(k, end.value, bars, zones, cfg, n)
          && forall j :: zones[k].createdIndex <= j < end.value ==> !EndsAt(k, j, bars, zones, cfg, n))
  }

  ghost predicate Fates(ends: Ends, bars: seq<Bar>, zones: seq<Zone>, cfg: Config, n: int) {
    |ends| == |zones| && forall k :: 0 <= k < |zones| ==> Fate(k, ends[k], bars, zones, cfg, n)
  }

  /** The bars and the blocks leave no choice of mitigation indexes. */
  lemma FatesDetermineEnds(a: Ends, b: Ends, bars: seq<Bar>, zones: seq<Zone>, cfg: Config, n: int)
    requires Fates(a, bars, zones, cfg, n) && Fates(b, bars, zones, cfg, n)
    ensures a == b
  {
    forall k | 0 <= k < |zones| ensures a[k] == b[k] {
      assert Fate(k, a[k], bars, zones, cfg, n) && Fate(k, b[k], bars, zones, cfg, n);
    }
  }

  /** A mitigation index, once set, stays; what is newly set is bar i. */
  ghost predicate OnlyRetires(before: Ends, after: Ends, i: int) {
    && |before| == |after|
    && forall k :: 0 <= k < |before| ==> after[k] == before[k] || (before[k].None? && after[k] == Some(i))
  }

  /** No mitigation index that was set has changed. */
  ghost predicate KeepsEnds(before: Ends, after: Ends) {
    && |before| <= |after|
    && forall k :: 0 <= k < |before| && before[k].Some? ==> after[k] == before[k]
  }

  ghost predicate StandingRival(before: Ends, zones: seq<Zone>, z: Zone) {
    exists c: nat :: c < |before| && c < |zones| && before[c].None? && Rivals(zones[c], z)
  }

  /** What the overlap rule does with new block z, built on bar i: it ends the new block if an active
      one is its rival, or it ends every active rival. */
  ghost predicate Displaces(before: Ends, after: Ends, zones: seq<Zone>, z: Zone, cfg: Config, i: int) {
    && |before| == |zones| && |after| == |zones| + 1
    && (forall k :: 0 <= k < |zones| ==>
          after[k] == if cfg.overlap && cfg.overlapMethod == Previous
            && before[k].None? && Rivals(zones[k], z) then Some(i)
                      else before[k])
    && after[|zones|] == if cfg.overlap && cfg.overlapMethod == Recent
         && StandingRival(before, zones, z) then Some(i) else None
  }

  lemma {:induction false} ActiveMembers(ends: Ends, n: nat)
    requires n <= |ends|
    ensures forall k :: k in ActiveUpTo(ends, n) <==> 0 <= k < n && ends[k].None?
  {
    if n > 0 { ActiveMembers(ends, n - 1); }
  }

  lemma {:induction false} StillActiveMembers(ids: seq<nat>, ends: Ends)
    requires Below(ids, |ends|)
    ensures forall k :: k in StillActive(ids, ends) <==> k in ids && ends[k].None?
  {
    if ids != [] {
      StillActiveMembers(ids[..|ids| - 1], ends);
      assert ids == ids[..|ids| - 1] + [ids[|ids| - 1]];
    }
  }

  /** Filtering again among those that were active finds all that still are. */
  lemma {:induction false} FilterTwice(before: Ends, after: Ends, n: nat)
    requires n <= |before| == |after|
    requires forall k :: 0 <= k < n && before[k].Some? ==> after[k].Some?
    ensures Below(ActiveUpTo(before, n), |after|)
    ensures StillActive(ActiveUpTo(before, n), after) == ActiveUpTo(after, n)
  {
    if n > 0 {
      FilterTwice(before, after, n - 1);
      var ids := ActiveUpTo(before, n - 1);
      if before[n - 1].None? {
        assert (ids + [n - 1])[..|ids|] == ids;
      } else {
        assert ActiveUpTo(before, n) == ids;
      }
    }
  }

  /** Retirements on bar `at` do not change who was alive before it. */
  lemma {:induction false} PastStays(zones: seq<Zone>, before: Ends, after: Ends, at: int, i: int, n: nat)
    requires n <= |zones| == |before| && OnlyRetires(before, after, at) && i < at
    ensures AliveAt(zones, after, i, n) == AliveAt(zones, before, i, n)
  {
    if n > 0 { PastStays(zones, before, after, at, i, n - 1); }
  }

  lemma {:induction false} AliveIgnoresNewer(zones: seq<Zone>, ends: Ends, z: Zone, end: Option<int>, i: int, n: nat)
    requires n <= |zones| == |ends|
    ensures AliveAt(zones + [z], ends + [end], i, n) == AliveAt(zones, ends, i, n)
  {
    if n > 0 { AliveIgnoresNewer(zones, ends, z, end, i, n - 1); }
  }

  lemma {:induction false} ActiveIgnoresNewer(ends: Ends, end: Option<int>, n: nat)
    requires n <= |ends|
    ensures ActiveUpTo(ends + [end], n) == ActiveUpTo(ends, n)
  {
    if n > 0 { ActiveIgnoresNewer(ends, end, n - 1); }
  }

  lemma {:induction false} ActiveIsAlive(zones: seq<Zone>, ends: Ends, i: int, n: nat)
    requires n <= |zones| == |ends|
    requires forall k :: 0 <= k < n ==> zones[k].createdIndex <= i && (ends[k].Some? ==> ends[k].value <= i)
    ensures AliveAt(zones, ends, i, n) == ActiveUpTo(ends, n)
  {
    if n > 0 { ActiveIsAlive(zones, ends, i, n - 1); }
  }

  /** A block built on bar i, and displacements on bar i, change no earlier bar's snapshot. */
  lemma TimelineGrows(zones: seq<Zone>, ends: Ends, z: Zone, after: Ends, i: int, j: int)
    requires |ends| == |zones| && OnlyRetires(ends + [None], after, i) && j < i && z.createdIndex == i
    ensures AliveAt(zones + [z], after, j, |zones| + 1) == AliveAt(zones, ends, j, |zones|)
  {
    PastStays(zones + [z], ends + [None], after, i, j, |zones| + 1);
    AliveIgnoresNewer(zones, ends, z, None, j, |zones|);
  }

  /** Who is refused does not depend on later blocks. */
  lemma {:induction false} RefusedIgnoresNewer(k: nat, zones: seq<Zone>, z: Zone, bars: seq<Bar>, cfg: Config)
    requires k < |zones|
    ensures Refused(k, zones + [z], bars, cfg) == Refused(k, zones, bars, cfg)
  {
    var all := zones + [z];
    forall c: nat | c < k ensures Refused(c, all, bars, cfg) == Refused(c, zones, bars, cfg) {
      RefusedIgnoresNewer(c, zones, z, bars, cfg);
    }
    assert forall c: nat :: c <= k ==> all[c] == zones[c];
  }

  /** Under "Recent", active on bar i means let in and not closed through before. */
  lemma ActiveMeansStanding(k: nat, end: Option<int>, bars: seq<Bar>, zones: seq<Zone>, cfg: Config, i: int)
    requires k < |zones| && cfg.overlap && cfg.overlapMethod == Recent && i <= |bars|
    requires 0 <= zones[k].createdIndex <= i && Fate(k, end, bars, zones, cfg, i)
    ensures end.None? <==> !Refused(k, zones, bars, cfg) && Unbroken(zones[k], bars, cfg, i)
  {
    if end.None? {
      assert !EndsAt(k, zones[k].createdIndex, bars, zones, cfg, i);
      forall j | 0 <= j < |bars| && zones[k].createdIndex <= j < i ensures !Mitigates(zones[k], bars[j], cfg) {
        assert !EndsAt(k, j, bars, zones, cfg, i);
      }
    }
  }

  /** The close of bar i settles a fate one bar further. */
  lemma FateCloses(k: nat, before: Option<int>, after: Option<int>, bars: seq<Bar>, zones: seq<Zone>, cfg: Config,
                   i: nat, n: nat)
    requires k < |zones| && i + 1 == n <= |bars| && zones[k].createdIndex <= i && (before.Some? ==> before.value <= i)
    requires Fate(k, before, bars, zones, cfg, i)
    requires after == if before.None? && Mitigates(zones[k], bars[i], cfg) then Some(i) else before
    ensures Fate(k, after, bars, zones, cfg, n)
  {
    forall j ensures EndsAt(k, j, bars, zones, cfg, n) ==
                     (EndsAt(k, j, bars, zones, cfg, i) || (j == i && Mitigates(zones[k], bars[i], cfg))) {
    }
  }

  /** An earlier block's fate when z is built on bar i. */
  lemma FateWithNewer(k: nat, before: Ends, after: Ends, bars: seq<Bar>, zones: seq<Zone>, z: Zone, cfg: Config, i: int)
    requires k < |zones| && z.createdIndex == i && Displaces(before, after, zones, z, cfg, i)
    requires zones[k].createdIndex <= i && (before[k].Some? ==> before[k].value <= i)
    requires Fate(k, before[k], bars, zones, cfg, i)
    ensures Fate(k, after[k], bars, zones + [z], cfg, i)
  {
    var all := zones + [z];
    RefusedIgnoresNewer(k, zones, z, bars, cfg);
    forall m ensures Replaced(k, m, all) == (Replaced(k, m, zones) || (m == i && Rivals(zones[k], z))) {
      ReplacedWithNewer(k, m, zones, z);
    }
    forall j ensures EndsAt(k, j, bars, all, cfg, i) ==
                     (EndsAt(k, j, bars, zones, cfg, i)
                      || (cfg.overlap && cfg.overlapMethod == Previous && j == i && Rivals(zones[k], z))) {
    }
  }

  lemma ReplacedWithNewer(k: nat, m: int, zones: seq<Zone>, z: Zone)
    requires k < |zones|
    ensures Replaced(k, m, zones + [z]) == (Replaced(k, m, zones) || (m == z.createdIndex && Rivals(zones[k], z)))
  {
    var all := zones + [z];
    if Replaced(k, m, zones) {
      var c: nat :| k < c < |zones| && zones[c].createdIndex == m && Rivals(zones[k], zones[c]);
      assert all[c] == zones[c];
    }
    if m == z.createdIndex && Rivals(zones[k], z) {
      assert all[|zones|] == z;
    }
  }

  /** The new block is refused exactly when an active block is its rival. */
  lemma NewestIsRefused(before: Ends, bars: seq<Bar>, zones: seq<Zone>, z: Zone, cfg: Config, i: int)
    requires cfg.overlap && cfg.overlapMethod == Recent && 0 <= i <= |bars| && z.createdIndex == i
    requires Fates(before, bars, zones, cfg, i) && forall k :: 0 <= k < |zones| ==> 0 <= zones[k].createdIndex <= i
    ensures Refused(|zones|, zones + [z], bars, cfg) == StandingRival(before, zones, z)
  {
    var all := zones + [z];
    forall c: nat | c < |zones|
      ensures all[c] == zones[c]
      ensures before[c].None? <==> !Refused(c, all, bars, cfg) && Unbroken(zones[c], bars, cfg, i)
    {
      assert Fate(c, before[c], bars, zones, cfg, i);
      ActiveMeansStanding(c, before[c], bars, zones, cfg, i);
      RefusedIgnoresNewer(c, zones, z, bars, cfg);
    }
    if StandingRival(before, zones, z) {
      var c: nat :| c < |before| && c < |zones| && before[c].None? && Rivals(zones[c], z);
      assert Rivals(all[c], all[|zones|]) && !Refused(c, all, bars, cfg) && Unbroken(all[c], bars, cfg, i);
    }
    if Refused(|zones|, all, bars, cfg) {
      var c: nat :| c < |zones| && Rivals(all[c], all[|zones|]) && !Refused(c, all, bars, cfg)
                    && Unbroken(all[c], bars, cfg, all[|zones|].createdIndex);
      assert before[c].None? && Rivals(zones[c], z);
    }
  }

  lemma NewestFate(before: Ends, after: Ends, bars: seq<Bar>, zones: seq<Zone>, z: Zone, cfg: Config, i: int)
    requires 0 <= i <= |bars| && z.createdIndex == i && Displaces(before, after, zones, z, cfg, i)
    requires Fates(before, bars, zones, cfg, i) && forall k :: 0 <= k < |zones| ==> 0 <= zones[k].createdIndex <= i
    ensures Fate(|zones|, after[|zones|], bars, zones + [z], cfg, i)
  {
    if cfg.overlap && cfg.overlapMethod == Recent {
      NewestIsRefused(before, bars, zones, z, cfg, i);
    }
  }

  lemma FatesGrow(before: Ends, after: Ends, bars: seq<Bar>, zones: seq<Zone>, z: Zone, cfg: Config, i: int)
    requires 0 <= i <= |bars| && z.createdIndex == i && Displaces(before, after, zones, z, cfg, i)
    requires Fates(before, bars, zones, cfg, i)
    requires forall k :: 0 <= k < |zones| ==>
               0 <= zones[k].createdIndex <= i && (before[k].Some? ==> before[k].value <= i)
    ensures Fates(after, bars, zones + [z], cfg, i)
  {
    forall k | 0 <= k < |zones| ensures Fate(k, after[k], bars, zones + [z], cfg, i) {
      FateWithNewer(k, before, after, bars, zones, z, cfg, i);
    }
    NewestFate(before, after, bars, zones, z, cfg, i);
  }

  /** The events of one bar that the filter lets through, in order. */
  function Admitted(events: seq<MS.Event>, cfg: Config, i: int): seq<MS.Event> {
    if events == [] then []
    else
      var e := events[|events| - 1];
      Admitted(events[..|events| - 1], cfg, i)
      + if e.index == i && (cfg.filterKind.None? || e.kind == cfg.filterKind.value) then [e] else []
  }

  lemma {:induction false} AdmittedAreEvents(events: seq<MS.Event>, cfg: Config, i: int)
    ensures forall e :: e in Admitted(events, cfg, i) ==> e in events && e.index == i
  {
    if events != [] {
      AdmittedAreEvents(events[..|events| - 1], cfg, i);
      assert events == events[..|events| - 1] + [events[|events| - 1]];
    }
  }

  ghost predicate InFrame(events: seq<MS.Event>, bars: seq<Bar>) {
    forall e :: e in events ==> 0 <= e.index < |bars| && 0 <= e.pivotIndex
  }

  /** The zones of all events admitted before bar n, in the order they are processed. */
  ghost function ZonesBefore(bars: seq<Bar>, events: seq<MS.Event>, cfg: Config, n: nat): seq<Zone>
    requires InFrame(events, bars)
  {
    if n == 0 then [] else ZonesBefore(bars, events, cfg, n - 1) + ZonesOf(bars, events, cfg, n - 1)
  }

  ghost function ZonesOf(bars: seq<Bar>, events: seq<MS.Event>, cfg: Config, i: int): seq<Zone>
    requires InFrame(events, bars)
  {
    AdmittedAreEvents(events, cfg, i);
    var admitted := Admitted(events, cfg, i);
    seq(|admitted|, k requires 0 <= k < |admitted| => ZoneOf(bars, admitted[k], cfg))
  }

  /** Snapshot i lists exactly the blocks alive at bar i. */
  ghost predicate Timeline(zones: seq<Zone>, ends: Ends, snapshots: seq<seq<nat>>, n: nat)
    requires |ends| == |zones|
  {
    |snapshots| == n && forall i :: 0 <= i < n ==> snapshots[i] == AliveAt(zones, ends, i, |zones|)
  }

  /** Within bar i: the events so far have been worked in, the close of the bar has not. The listed
      blocks that are active are all that are. */
  ghost predicate Building(zones: seq<Zone>, ends: Ends, listed: seq<nat>, snapshots: seq<seq<nat>>,
                           bars: seq<Bar>, cfg: Config, i: nat)
    requires i < |bars| && |ends| == |zones|
  {
    && Below(listed, |zones|)
    && (forall k :: 0 <= k < |zones| ==> 0 <= zones[k].createdIndex <= i && (ends[k].Some? ==> ends[k].value <= i))
    && Fates(ends, bars, zones, cfg, i)
    && StillActive(listed, ends) == ActiveUpTo(ends, |zones|)
    && Timeline(zones, ends, snapshots, i)
    && (cfg.overlap ==> ActiveApart(ends, zones) && AllApart(snapshots, zones))
  }

  ghost predicate AllApart(snapshots: seq<seq<nat>>, zones: seq<Zone>) {
    forall j :: 0 <= j < |snapshots| ==> Below(snapshots[j], |zones|) && Apart(snapshots[j], zones)
  }

  /** Between bars, n of them worked through: the list is exactly the active blocks. */
  ghost predicate Settled(zones: seq<Zone>, ends: Ends, listed: seq<nat>, snapshots: seq<seq<nat>>,
                          bars: seq<Bar>, cfg: Config, n: nat)
    requires n <= |bars| && |ends| == |zones|
  {
    && (forall k :: 0 <= k < |zones| ==> 0 <= zones[k].createdIndex < n && (ends[k].Some? ==> ends[k].value < n))
    && Fates(ends, bars, zones, cfg, n)
    && listed == ActiveUpTo(ends, |zones|)
    && Timeline(zones, ends, snapshots, n)
    && (cfg.overlap ==> ActiveApart(ends, zones) && AllApart(snapshots, zones))
  }

  lemma SettledBuilds(zones: seq<Zone>, ends: Ends, listed: seq<nat>, snapshots: seq<seq<nat>>,
                      bars: seq<Bar>, cfg: Config, i: nat)
    requires i < |bars| && |ends| == |zones| && Settled(zones, ends, listed, snapshots, bars, cfg, i)
    ensures Building(zones, ends, listed, snapshots, bars, cfg, i)
  {
    FilterTwice(ends, ends, |zones|);
  }

  lemma {:induction false} StillTwice(ids: seq<nat>, before: Ends, after: Ends)
    requires Below(ids, |before|) && |before| == |after|
    requires forall k :: 0 <= k < |before| && before[k].Some? ==> after[k].Some?
    ensures Below(StillActive(ids, before), |after|)
    ensures StillActive(StillActive(ids, before), after) == StillActive(ids, after)
  {
    if ids != [] {
      var n := |ids| - 1;
      StillTwice(ids[..n], before, after);
      var kept := StillActive(ids[..n], before);
      if before[ids[n]].None? {
        assert (kept + [ids[n]])[..|kept|] == kept;
      } else {
        assert StillActive(ids, before) == kept;
      }
    }
  }

  /** The close of bar i on the listed blocks. */
  ghost predicate ClosesBar(zones: seq<Zone>, before: Ends, after: Ends, listed: seq<nat>, bar: Bar, cfg: Config,
      i: int) {
    && |before| == |after| == |zones|
    && forall k :: 0 <= k < |zones| ==>
         after[k] == if k in listed && before[k].None? && Mitigates(zones[k], bar, cfg) then Some(i) else before[k]
  }

  lemma BarCloses(zones: seq<Zone>, before: Ends, after: Ends, listed: seq<nat>, snapshots: seq<seq<nat>>,
                  bars: seq<Bar>, cfg: Config, i: nat)
    requires i < |bars| && |before| == |zones| && Building(zones, before, listed, snapshots, bars, cfg, i)
    requires ClosesBar(zones, before, after, listed, bars[i], cfg, i)
    ensures Settled(zones, after, StillActive(listed, after), snapshots + [StillActive(listed, after)], bars, cfg,
        i + 1)
  {
    var active := StillActive(listed, after);
    StillActiveMembers(listed, before);
    ActiveMembers(before, |zones|);
    FatesClose(before, after, bars, zones, cfg, i);
    StillTwice(listed, before, after);
    FilterTwice(before, after, |zones|);
    TimelineExtends(zones, before, after, snapshots, i);
    KeptIsActive(active, after, |zones|);
    if cfg.overlap { KeptIsApart(active, after, zones); }
  }

  lemma FatesClose(before: Ends, after: Ends, bars: seq<Bar>, zones: seq<Zone>, cfg: Config, i: nat)
    requires i < |bars| && Fates(before, bars, zones, cfg, i) && |after| == |zones|
    requires forall k :: 0 <= k < |zones| ==> zones[k].createdIndex <= i && (before[k].Some? ==> before[k].value <= i)
    requires forall k :: 0 <= k < |zones| ==>
               after[k] == if before[k].None? && Mitigates(zones[k], bars[i], cfg) then Some(i) else before[k]
    ensures Fates(after, bars, zones, cfg, i + 1)
  {
    forall k | 0 <= k < |zones| ensures Fate(k, after[k], bars, zones, cfg, i + 1) {
      FateCloses(k, before[k], after[k], bars, zones, cfg, i, i + 1);
    }
  }

  lemma KeptIsApart(kept: seq<nat>, ends: Ends, zones: seq<Zone>)
    requires ActiveApart(ends, zones) && kept == ActiveUpTo(ends, |zones|)
    ensures Apart(kept, zones)
  {
    ActiveMembers(ends, |zones|);
    forall a, b | a in kept && b in kept && a != b && a < |zones| && b < |zones| ensures !Rivals(zones[a], zones[b]) {
      if b < a { assert !Rivals(zones[b], zones[a]); }
    }
  }

  lemma TimelineExtends(zones: seq<Zone>, before: Ends, after: Ends, snapshots: seq<seq<nat>>, i: nat)
    requires |before| == |zones| && OnlyRetires(before, after, i) && Timeline(zones, before, snapshots, i)
    requires forall k :: 0 <= k < |zones| ==> zones[k].createdIndex <= i && (after[k].Some? ==> after[k].value <= i)
    ensures Timeline(zones, after, snapshots + [ActiveUpTo(after, |zones|)], i + 1)
  {
    forall j | 0 <= j < i ensures snapshots[j] == AliveAt(zones, after, j, |zones|) {
      PastStays(zones, before, after, i, j, |zones|);
    }
    ActiveIsAlive(zones, after, i, |zones|);
  }

  /** Listing the new block after the active ones. */
  lemma NewestListed(kept: seq<nat>, ends: Ends, n: nat)
    requires |ends| == n && kept == ActiveUpTo(ends, n)
    ensures kept + [n] == ActiveUpTo(ends + [None], n + 1)
    ensures Below(kept + [n], n + 1)
  {
    KeptIsActive(kept, ends, n);
    ActiveIgnoresNewer(ends, None, n);
  }

  /** The overlap rule leaves no two active rivals. */
  lemma DisplacingSeparates(before: Ends, after: Ends, zones: seq<Zone>, z: Zone, cfg: Config, i: int)
    requires cfg.overlap && Displaces(before, after, zones, z, cfg, i) && ActiveApart(before, zones)
    ensures ActiveApart(after, zones + [z])
  {
    var all := zones + [z];
    forall a, b | 0 <= a < b < |all| && after[a].None? && after[b].None? ensures !Rivals(all[a], all[b]) {
      if b < |zones| { assert !Rivals(zones[a], zones[b]); }
    }
  }

  /** Working the new block and its displacements in keeps everything. */
  lemma BlockWorkedIn(zones: seq<Zone>, ends: Ends, listed: seq<nat>, snapshots: seq<seq<nat>>,
                      bars: seq<Bar>, cfg: Config, i: nat, z: Zone, after: Ends, ids: seq<nat>)
    requires i < |bars| && |ends| == |zones| && Building(zones, ends, listed, snapshots, bars, cfg, i)
    requires z.createdIndex == i && Displaces(ends, after, zones, z, cfg, i)
    requires ids == ActiveUpTo(ends + [None], |zones| + 1) && Below(ids, |zones| + 1)
    ensures Building(zones + [z], after, ids, snapshots, bars, cfg, i)
  {
    FatesGrow(ends, after, bars, zones, z, cfg, i);
    FilterTwice(ends + [None], after, |zones| + 1);
    forall j | 0 <= j < i ensures snapshots[j] == AliveAt(zones + [z], after, j, |zones| + 1) {
      TimelineGrows(zones, ends, z, after, i, j);
    }
    if cfg.overlap {
      DisplacingSeparates(ends, after, zones, z, cfg, i);
      forall j | 0 <= j < |snapshots| ensures Apart(snapshots[j], zones + [z]) {
        ApartIgnoresNewer(snapshots[j], zones, z);
      }
    }
  }

  /** The block was touched last at the last bar of its life, among the first n bars, that trades into it. A bar
      that ends it does not touch it. */
  ghost predicate LastTouch(z: Zone, end: Option<int>, touch: Option<int>, bars: seq<Bar>, n: nat)
    requires n <= |bars|
  {
    && (touch.Some? ==> TouchesAt(z, end, touch.value, bars, n))
    && forall m :: (touch.Some? ==> touch.value < m) ==> !TouchesAt(z, end, m, bars, n)
  }

  ghost predicate TouchesAt(z: Zone, end: Option<int>, m: int, bars: seq<Bar>, n: nat)
    requires n <= |bars|
  {
    0 <= m < n && z.createdIndex <= m && (end.None? || m < end.value) && Touches(z, bars[m])
  }

  ghost predicate LastTouches(zones: seq<Zone>, ends: Ends, touched: Ends, bars: seq<Bar>, n: nat)
    requires n <= |bars|
  {
    |ends| == |touched| == |zones| && forall k :: 0 <= k < |zones| ==> LastTouch(zones[k], ends[k], touched[k], bars, n)
  }

  /** A block built, and displacements made, on bar i leave every last touch among the bars before. */
  lemma TouchesGrow(zones: seq<Zone>, before: Ends, touched: Ends, z: Zone, after: Ends, bars: seq<Bar>, cfg: Config,
      i: nat)
    requires i <= |bars| && LastTouches(zones, before, touched, bars, i) && z.createdIndex == i
    requires Displaces(before, after, zones, z, cfg, i)
    ensures LastTouches(zones + [z], after, touched + [None], bars, i)
  {
    var all, touches := zones + [z], touched + [None];
    forall k | 0 <= k < |all| ensures LastTouch(all[k], after[k], touches[k], bars, i) {
      if k < |zones| {
        assert LastTouch(zones[k], before[k], touched[k], bars, i);
        forall m ensures TouchesAt(zones[k], after[k], m, bars, i) == TouchesAt(zones[k], before[k], m, bars, i) {
        }
      }
    }
  }

  /** What the close of a bar does to a last touch. */
  ghost predicate Retouches(z: Zone, end: Option<int>, touch: Option<int>, after: Option<int>, bar: Bar, cfg: Config,
      i: int) {
    after == if end.None? && !Mitigates(z, bar, cfg) && Touches(z, bar) then Some(i) else touch
  }

  lemma TouchCloses(z: Zone, end: Option<int>, end': Option<int>, touch: Option<int>, touch': Option<int>,
      bars: seq<Bar>, cfg: Config, i: nat, n: nat)
    requires i + 1 == n <= |bars| && z.createdIndex <= i && (end.Some? ==> end.value <= i)
    requires LastTouch(z, end, touch, bars, i) && Retouches(z, end, touch, touch', bars[i], cfg, i)
    requires end' == if end.None? && Mitigates(z, bars[i], cfg) then Some(i) else end
    ensures LastTouch(z, end', touch', bars, n)
  {
    forall m ensures TouchesAt(z, end', m, bars, n)
                     == (TouchesAt(z, end, m, bars, i) || (m == i && end'.None? && Touches(z, bars[i]))) {
    }
  }

  lemma ActiveAreListed(ends: Ends, listed: seq<nat>)
    requires Below(listed, |ends|) && StillActive(listed, ends) == ActiveUpTo(ends, |ends|)
    ensures forall k :: 0 <= k < |ends| && ends[k].None? ==> k in listed
  {
    StillActiveMembers(listed, ends);
    ActiveMembers(ends, |ends|);
    forall k | 0 <= k < |ends| && ends[k].None? ensures k in listed {
      assert k in ActiveUpTo(ends, |ends|);
    }
  }

  lemma TouchesClose(zones: seq<Zone>, before: Ends, after: Ends, listed: seq<nat>, touched: Ends, touched': Ends,
      bars: seq<Bar>, cfg: Config, i: nat, n: nat)
    requires i + 1 == n <= |bars| && LastTouches(zones, before, touched, bars, i) && |touched'| == |zones|
    requires ClosesBar(zones, before, after, listed, bars[i], cfg, i)
    requires forall k :: 0 <= k < |zones| ==>
               && zones[k].createdIndex <= i && (before[k].Some? ==> before[k].value <= i)
               && (before[k].None? ==> k in listed)
               && Retouches(zones[k], before[k], touched[k], touched'[k], bars[i], cfg, i)
    ensures LastTouches(zones, after, touched', bars, n)
  {
    forall k | 0 <= k < |zones| ensures LastTouch(zones[k], after[k], touched'[k], bars, n) {
      TouchCloses(zones[k], before[k], after[k], touched[k], touched'[k], bars, cfg, i, n);
    }
  }

  /** The engine's blocks, field by field, and its list of active ones. A block is named by its place
      in creation order, so what a snapshot lists is shared with the blocks, not copied. */
  class OrderBlockEngine {
    var zones: seq<Zone>
    var mitigated: Ends
    var touched: Ends
    var relevance: seq<real>
    var active: seq<nat>
    var snapshots: seq<seq<nat>>

    ghost predicate Shaped()
      reads this
    {
      && |mitigated| == |touched| == |relevance| == |zones|
      && Below(active, |zones|)
    }

    constructor ()
      ensures zones == [] && mitigated == [] && touched == [] && relevance == [] && active == [] && snapshots == []
    {
      zones, mitigated, touched, relevance, active, snapshots := [], [], [], [], [], [];
    }

    /** `_apply_overlap`: the newest block z is the last one listed, after the active ones. */
    method ApplyOverlap(cfg: Config, ghost earlier: seq<Zone>, ghost before: Ends, ghost older: seq<nat>)
      requires Shaped() && |zones| == |earlier| + 1 && zones[..|earlier|] == earlier
      requires mitigated == before + [None] && active == older + [|earlier|]
      requires forall k :: k in older <==> 0 <= k < |earlier| && before[k].None?
      modifies this`mitigated
      ensures Displaces(before, mitigated, earlier, zones[|earlier|], cfg, zones[|earlier|].createdIndex)
    {
      var newest := |zones| - 1;
      var z := zones[newest];
      if !cfg.overlap || |active| < 2 {
        return;
      }
      for j := 0 to |active| - 1
        modifies this`mitigated
        invariant |mitigated| == |zones|
        invariant forall k :: 0 <= k < newest ==>
                    mitigated[k] == if cfg.overlapMethod == Previous && k in older[..j]
                      && Rivals(zones[k], z) then Some(z.createdIndex)
                                    else before[k]
        invariant mitigated[newest] == if cfg.overlapMethod == Recent
            && RivalAmong(older[..j], zones, z) then Some(z.createdIndex) else None
      {
        var k := active[j];
        assert k in older;
        assert older[..j + 1] == older[..j] + [k];
        if zones[k].side == z.side && zones[k].scope == z.scope && mitigated[k].None? {
          if z.bottom < zones[k].top && z.top > zones[k].bottom {
            if cfg.overlapMethod == Recent {
              mitigated := mitigated[newest := Some(z.createdIndex)];
            } else {
              mitigated := mitigated[k := Some(z.createdIndex)];
            }
          }
        }
      }
      assert older[..|older|] == older;
    }

    /** `_recalculate_relevance`: each listed block's share of the listed volume, in percent. */
    method RecalculateRelevance()
      requires Shaped()
      modifies this`relevance
      ensures Shaped()
      ensures forall k {:trigger relevance[k]} :: 0 <= k < |zones| ==>
                relevance[k] == if k in active then Share(zones[k].anchorVolume, ListedVolume(zones, active))
                  else old(relevance[k])
    {
      var total := ListedVolume(zones, active);
      ghost var before := relevance;
      for j := 0 to |active|
        modifies this`relevance
        invariant |relevance| == |zones|
        invariant forall k {:trigger relevance[k]} :: 0 <= k < |zones| ==>
                    relevance[k] == if k in active[..j] then Share(zones[k].anchorVolume, total) else before[k]
      {
        assert active[..j + 1] == active[..j] + [active[j]];
        relevance := relevance[active[j] := Share(zones[active[j]].anchorVolume, total)];
      }
      assert active[..|active|] == active;
    }

    /** The close of bar i retires what it mitigates; what stays active and is traded into is touched. */
    method RetireAndTouch(i: int, bar: Bar, cfg: Config)
      requires Shaped()
      modifies this`mitigated, this`touched
      ensures Shaped()
      ensures forall k :: 0 <= k < |zones| ==>
                && mitigated[k] == (if k in active && old(mitigated)[k].None?
                     && Mitigates(zones[k], bar, cfg) then Some(i)
                                    else old(mitigated)[k])
                && touched[k] == (if k in active && old(mitigated)[k].None? && !Mitigates(zones[k], bar, cfg)
                     && Touches(zones[k], bar)
                                  then Some(i) else old(touched)[k])
    {
      for j := 0 to |active|
        modifies this`mitigated, this`touched
        invariant |mitigated| == |touched| == |zones|
        invariant forall k :: 0 <= k < |zones| ==>
                    && mitigated[k] == (if k in active[..j] && old(mitigated)[k].None?
                         && Mitigates(zones[k], bar, cfg) then Some(i)
                                        else old(mitigated)[k])
                    && touched[k] == (if k in active[..j] && old(mitigated)[k].None?
                         && !Mitigates(zones[k], bar, cfg) && Touches(zones[k], bar)
                                      then Some(i) else old(touched)[k])
      {
        var k := active[j];
        assert active[..j + 1] == active[..j] + [k];
        if mitigated[k].None? {
          if Mitigates(zones[k], bar, cfg) {
            mitigated := mitigated[k := Some(i)];
          } else if Touches(zones[k], bar) {
            touched := touched[k := Some(i)];
          }
        }
      }
      assert active[..|active|] == active;
    }

    /** The new block is listed after the ones still active. */
    method ListBlock(z: Zone)
      requires Shaped() && StillActive(active, mitigated) == ActiveUpTo(mitigated, |zones|)
      modifies this`zones, this`mitigated, this`touched, this`relevance, this`active
      ensures Shaped() && zones == old(zones) + [z] && mitigated == old(mitigated) + [None]
      ensures touched == old(touched) + [None]
      ensures active == ActiveUpTo(old(mitigated), |old(zones)|) + [|old(zones)|] == ActiveUpTo(mitigated, |zones|)
    {
      NewestListed(StillActive(active, mitigated), mitigated, |zones|);
      active := StillActive(active, mitigated) + [|zones|];
      zones, mitigated, touched, relevance := zones + [z], mitigated + [None], touched + [None], relevance + [0.0];
    }

    /** Building block z and applying the overlap rule. */
    method Displace(z: Zone, cfg: Config, i: int)
      requires Shaped() && StillActive(active, mitigated) == ActiveUpTo(mitigated, |zones|) && z.createdIndex == i
      modifies this`zones, this`mitigated, this`touched, this`relevance, this`active
      ensures Shaped() && zones == old(zones) + [z] && active == ActiveUpTo(old(mitigated) + [None], |zones|)
      ensures Displaces(old(mitigated), mitigated, old(zones), z, cfg, i) && touched == old(touched) + [None]
    {
      ghost var kept := ActiveUpTo(mitigated, |zones|);
      ActiveMembers(mitigated, |zones|);
      ListBlock(z);
      ApplyOverlap(cfg, old(zones), old(mitigated), kept);
    }

    /** One admitted event on bar i: a new block, the overlap rule, and fresh relevances. */
    method AddBlock(bars: seq<Bar>, e: MS.Event, cfg: Config, i: nat)
      requires i < |bars| && e.index == i && 0 <= e.pivotIndex
      requires Shaped() && Building(zones, mitigated, active, snapshots, bars, cfg, i)
      requires LastTouches(zones, mitigated, touched, bars, i)
      modifies this`zones, this`mitigated, this`touched, this`relevance, this`active
      ensures Shaped() && Building(zones, mitigated, active, snapshots, bars, cfg, i)
      ensures LastTouches(zones, mitigated, touched, bars, i)
      ensures zones == old(zones) + [ZoneOf(bars, e, cfg)]
      ensures KeepsEnds(old(mitigated), mitigated)
    {
      var z := ZoneOf(bars, e, cfg);
      Displace(z, cfg, i);
      BlockWorkedIn(old(zones), old(mitigated), old(active), snapshots, bars, cfg, i, z, mitigated, active);
      TouchesGrow(old(zones), old(mitigated), old(touched), z, mitigated, bars, cfg, i);
      RecalculateRelevance();
    }

    /** The admitted events of bar i, in order. */
    method WorkEvents(bars: seq<Bar>, events: seq<MS.Event>, cfg: Config, i: nat)
      requires i < |bars| && InFrame(events, bars) && Shaped()
      requires Settled(zones, mitigated, active, snapshots, bars, cfg, i)
      requires LastTouches(zones, mitigated, touched, bars, i)
      modifies this`zones, this`mitigated, this`touched, this`relevance, this`active
      ensures Shaped() && Building(zones, mitigated, active, snapshots, bars, cfg, i)
      ensures LastTouches(zones, mitigated, touched, bars, i)
      ensures zones == old(zones) + ZonesOf(bars, events, cfg, i)
      ensures KeepsEnds(old(mitigated), mitigated)
    {
      SettledBuilds(zones, mitigated, active, snapshots, bars, cfg, i);
      AdmittedAreEvents(events, cfg, i);
      var admitted := Admitted(events, cfg, i);
      ghost var before, added := zones, ZonesOf(bars, events, cfg, i);
      for k := 0 to |admitted|
        invariant Shaped() && Building(zones, mitigated, active, snapshots, bars, cfg, i)
        invariant LastTouches(zones, mitigated, touched, bars, i)
        invariant zones == before + added[..k]
        invariant KeepsEnds(old(mitigated), mitigated)
      {
        assert added[..k + 1] == added[..k] + [ZoneOf(bars, admitted[k], cfg)];
        AddBlock(bars, admitted[k], cfg, i);
      }
      assert added[..|admitted|] == added;
    }

    /** The close of bar i on the mitigation indexes and the last touches. */
    method SettleTouches(bars: seq<Bar>, cfg: Config, i: nat)
      requires i < |bars| && Shaped() && LastTouches(zones, mitigated, touched, bars, i)
      requires StillActive(active, mitigated) == ActiveUpTo(mitigated, |zones|)
      requires forall k :: 0 <= k < |zones| ==>
                 zones[k].createdIndex <= i && (mitigated[k].Some? ==> mitigated[k].value <= i)
      modifies this`mitigated, this`touched
      ensures Shaped() && ClosesBar(zones, old(mitigated), mitigated, active, bars[i], cfg, i)
      ensures LastTouches(zones, mitigated, touched, bars, i + 1)
    {
      ActiveAreListed(mitigated, active);
      RetireAndTouch(i, bars[i], cfg);
      TouchesClose(zones, old(mitigated), mitigated, active, old(touched), touched, bars, cfg, i, i + 1);
    }

    /** The end of bar i: retire and touch, drop what retired, refresh relevances, take the snapshot. */
    method CloseBar(bars: seq<Bar>, cfg: Config, i: nat)
      requires i < |bars| && Shaped() && Building(zones, mitigated, active, snapshots, bars, cfg, i)
      requires LastTouches(zones, mitigated, touched, bars, i)
      modifies this`mitigated, this`touched, this`relevance, this`active, this`snapshots
      ensures Shaped() && Settled(zones, mitigated, active, snapshots, bars, cfg, i + 1)
      ensures LastTouches(zones, mitigated, touched, bars, i + 1)
      ensures KeepsEnds(old(mitigated), mitigated) && old(snapshots) <= snapshots
    {
      SettleTouches(bars, cfg, i);
      BarCloses(zones, old(mitigated), mitigated, active, snapshots, bars, cfg, i);
      StillActiveMembers(active, mitigated);
      active := StillActive(active, mitigated);
      KeptIsActive(active, mitigated, |zones|);
      RecalculateRelevance();
      snapshots := snapshots + [active];
    }

    /** Bar i: its events, then its close. */
    method WorkBar(bars: seq<Bar>, events: seq<MS.Event>, cfg: Config, i: nat)
      requires i < |bars| && InFrame(events, bars) && Shaped()
      requires Settled(zones, mitigated, active, snapshots, bars, cfg, i)
      requires LastTouches(zones, mitigated, touched, bars, i)
      modifies this
      ensures Shaped() && Settled(zones, mitigated, active, snapshots, bars, cfg, i + 1)
      ensures LastTouches(zones, mitigated, touched, bars, i + 1)
      ensures zones == old(zones) + ZonesOf(bars, events, cfg, i)
      ensures KeepsEnds(old(mitigated), mitigated) && old(snapshots) <= snapshots
    {
      WorkEvents(bars, events, cfg, i);
      CloseBar(bars, cfg, i);
    }
  }

  /** The mitigation indexes after each of n bars: those of the blocks built by then, and none that was
      set changes afterwards. */
  ghost predicate Recorded(history: seq<Ends>, bars: seq<Bar>, events: seq<MS.Event>, cfg: Config, n: nat)
    requires InFrame(events, bars)
  {
    && |history| == n + 1
    && (forall i :: 0 <= i <= n ==> Fates(history[i], bars, ZonesBefore(bars, events, cfg, i), cfg, i))
    && (forall i, j :: 0 <= i <= j <= n ==> KeepsEnds(history[i], history[j]))
  }

  lemma RecordGrows(history: seq<Ends>, ends: Ends, bars: seq<Bar>, events: seq<MS.Event>, cfg: Config, n: nat)
    requires InFrame(events, bars) && Recorded(history, bars, events, cfg, n) && KeepsEnds(history[n], ends)
    requires Fates(ends, bars, ZonesBefore(bars, events, cfg, n + 1), cfg, n + 1)
    ensures Recorded(history + [ends], bars, events, cfg, n + 1)
  {
    var all := history + [ends];
    forall i | 0 <= i <= n + 1 ensures KeepsEnds(all[i], ends) {
      if i <= n { assert KeepsEnds(history[i], history[n]); }
    }
    forall i, j | 0 <= i <= j <= n + 1 ensures KeepsEnds(all[i], all[j]) {
      if j <= n { assert KeepsEnds(history[i], history[j]); }
    }
  }

  /** `process`: the whole frame. Afterwards the zones are those of all admitted events, every block
      ended at the first bar that ends it, and every snapshot is exactly the blocks alive at its bar,
      rivals apart. */
  method Process(bars: seq<Bar>, events: seq<MS.Event>, cfg: Config)
      returns (engine: OrderBlockEngine, ghost history: seq<Ends>)
    requires InFrame(events, bars)
    ensures fresh(engine) && engine.Shaped()
    ensures engine.zones == ZonesBefore(bars, events, cfg, |bars|)
    ensures Settled(engine.zones, engine.mitigated, engine.active, engine.snapshots, bars, cfg, |bars|)
    ensures Recorded(history, bars, events, cfg, |bars|) && history[|bars|] == engine.mitigated
    ensures LastTouches(engine.zones, engine.mitigated, engine.touched, bars, |bars|)
  {
    engine := new OrderBlockEngine();
    history := [engine.mitigated];
    for i := 0 to |bars|
      invariant engine.Shaped() && engine.zones == ZonesBefore(bars, events, cfg, i)
      invariant Settled(engine.zones, engine.mitigated, engine.active, engine.snapshots, bars, cfg, i)
      invariant Recorded(history, bars, events, cfg, i) && history[i] == engine.mitigated
      invariant LastTouches(engine.zones, engine.mitigated, engine.touched, bars, i)
    {
      engine.WorkBar(bars, events, cfg, i);
      RecordGrows(history, engine.mitigated, bars, events, cfg, i);
      history := history + [engine.mitigated];
    }
  }

  lemma KeptIsActive(kept: seq<nat>, ends: Ends, n: nat)
    requires n <= |ends| && kept == ActiveUpTo(ends, n)
    ensures forall j :: 0 <= j < |kept| ==> kept[j] < n && ends[kept[j]].None?
  {
    ActiveMembers(ends, n);
    assert forall j :: 0 <= j < |kept| ==> kept[j] in kept;
  }

  lemma ApartIgnoresNewer(ids: seq<nat>, zones: seq<Zone>, z: Zone)
    requires Apart(ids, zones) && forall j :: 0 <= j < |ids| ==> ids[j] < |zones|
    ensures Apart(ids, zones + [z])
  {
    forall a, b | a in ids && b in ids && a != b && a < |zones + [z]| && b < |zones + [z]|
      ensures !Rivals((zones + [z])[a], (zones + [z])[b])
    {
      assert a < |zones| && b < |zones|;
    }
  }

  function ListedVolume(zones: seq<Zone>, ids: seq<nat>): real
    requires Below(ids, |zones|)
  {
    if ids == [] then 0.0
    else ListedVolume(zones, ids[..|ids| - 1]) + zones[ids[|ids| - 1]].anchorVolume
  }

  function Share(volume: real, total: real): real {
    volume / (if total == 0.0 then 1.0 else total) * 100.0
  }

  ghost predicate RivalAmong(ids: seq<nat>, zones: seq<Zone>, z: Zone) {
    exists c :: c in ids && c < |zones| && Rivals(zones[c], z)
  }

  /** Without the overlap rule a block lives exactly until the first close through it. */
  lemma LifetimeIsFirstBreak(k: nat, end: Option<int>, bars: seq<Bar>, zones: seq<Zone>, cfg: Config)
    requires k < |zones| && !cfg.overlap && 0 <= zones[k].createdIndex && Fate(k, end, bars, zones, cfg, |bars|)
    ensures end.None? <==> Unbroken(zones[k], bars, cfg, |bars|)
    ensures forall m :: end == Some(m) <==>
              zones[k].createdIndex <= m < |bars| && Mitigates(zones[k], bars[m], cfg)
                && Unbroken(zones[k], bars, cfg, m)
  {
    forall j | 0 <= j < |bars| ensures EndsAt(k, j, bars, zones, cfg, |bars|) == Mitigates(zones[k], bars[j], cfg) {
    }
  }
}
