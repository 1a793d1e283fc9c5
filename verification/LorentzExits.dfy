/** What the exit columns amount to, for whole runs. */
module LorentzExits {
  import opened Neighbours
  import opened Lorentz

  /** The bars-held counter restarts at each change of signal and otherwise counts up. */
  ghost predicate CountsHeld(s: Series) {
    && |s.barsHeld| == |s.signals|
    && (forall t :: 0 < t < |s.signals| ==> HeldAt(s, t))
    && (s.barsHeld != [] ==> 0 <= s.barsHeld[0] <= 1)
  }

  ghost predicate HeldAt(s: Series, t: nat)
    requires 0 < t < |s.signals| == |s.barsHeld|
  {
    s.barsHeld[t] == if Change(s.signals, t) then 0 else s.barsHeld[t - 1] + 1
  }

  lemma {:induction false} LoopCountsHeld(cfg: Config, bars: seq<Bar>, first: nat, n: nat)
    requires n <= |bars|
    ensures var state := Loop(cfg, bars, first, n);
            CountsHeld(Series(state.predictions, state.signals, state.barsHeld))
  {
    if n > 0 {
      LoopCountsHeld(cfg, bars, first, n - 1);
      var before, after := Loop(cfg, bars, first, n - 1), Loop(cfg, bars, first, n);
      var s0 := Series(before.predictions, before.signals, before.barsHeld);
      var s := Series(after.predictions, after.signals, after.barsHeld);
      forall t | 0 < t < n ensures HeldAt(s, t) {
        if t < n - 1 { assert HeldAt(s0, t); }
      }
    }
  }

  ghost predicate Unchanged(signals: seq<int>, from: int, to: int) {
    forall j :: from <= j <= to ==> !Change(signals, j)
  }

  /** Four bars after a change the counter reads four exactly when nothing changed since. */
  lemma HeldFourMeansUnchanged(s: Series, t: nat)
    requires CountsHeld(s) && 5 <= t < |s.signals| && Change(s.signals, t - 4)
    ensures s.barsHeld[t] == 4 <==> Unchanged(s.signals, t - 3, t)
  {
    assert HeldAt(s, t) && HeldAt(s, t - 1) && HeldAt(s, t - 2) && HeldAt(s, t - 3) && HeldAt(s, t - 4);
    if s.barsHeld[t] == 4 {
      forall j | t - 3 <= j <= t ensures !Change(s.signals, j) {
        assert j == t || j == t - 1 || j == t - 2 || j == t - 3;
      }
    }
  }

  lemma EntryChangesSignal(cfg: Settings, bars: seq<Bar>, s: Series, e: int)
    requires Fits(bars, s) && cfg.persistenceBars <= 1
    ensures LongEntry(cfg, bars, s, e) ==> Change(s.signals, e) && Buy(bars, s, e)
    ensures ShortEntry(cfg, bars, s, e) ==> Change(s.signals, e) && Sell(bars, s, e)
  {
  }

  /** With a longer persistence an entry comes after its signal has already stood for a bar. */
  lemma LateEntryKeepsSignal(cfg: Settings, bars: seq<Bar>, s: Series, e: int)
    requires Fits(bars, s) && cfg.persistenceBars >= 2
    ensures LongEntry(cfg, bars, s, e) ==> e >= 1 && Buy(bars, s, e) && !Change(s.signals, e)
    ensures ShortEntry(cfg, bars, s, e) ==> e >= 1 && Sell(bars, s, e) && !Change(s.signals, e)
  {
    if LongEntry(cfg, bars, s, e) { assert Buy(bars, s, e) && Buy(bars, s, e - 1); }
    if ShortEntry(cfg, bars, s, e) { assert Sell(bars, s, e) && Sell(bars, s, e - 1); }
  }

  lemma LateNewKeepsSignal(cfg: Settings, bars: seq<Bar>, s: Series, t: int)
    requires Fits(bars, s) && cfg.persistenceBars >= 2
    ensures NewBuy(cfg, bars, s, t) ==> t >= 1 && Buy(bars, s, t) && !Change(s.signals, t)
    ensures NewSell(cfg, bars, s, t) ==> t >= 1 && Sell(bars, s, t) && !Change(s.signals, t)
  {
    if NewBuy(cfg, bars, s, t) { assert Buy(bars, s, t) && Buy(bars, s, t - 1); }
    if NewSell(cfg, bars, s, t) { assert Sell(bars, s, t) && Sell(bars, s, t - 1); }
  }

  /** Four bars after a bar that kept its signal, the counter does not read four. */
  lemma KeptSignalIsNotHeldFour(s: Series, t: nat)
    requires CountsHeld(s) && 5 <= t < |s.signals| && !Change(s.signals, t - 4) && s.barsHeld[t - 5] >= 0
    ensures s.barsHeld[t] != 4
  {
    assert HeldAt(s, t) && HeldAt(s, t - 1) && HeldAt(s, t - 2) && HeldAt(s, t - 3) && HeldAt(s, t - 4);
  }

  lemma {:induction false} HeldIsNotNegative(s: Series, t: nat)
    requires CountsHeld(s) && t < |s.signals|
    ensures s.barsHeld[t] >= 0
  {
    if t > 0 {
      HeldIsNotNegative(s, t - 1);
      assert HeldAt(s, t);
    }
  }

  /** A signal that flipped over the last four bars and stands again has been held one to three bars. */
  lemma FlippedIsHeldLess(s: Series, t: nat)
    requires CountsHeld(s) && 4 <= t < |s.signals|
    requires s.signals[t - 4] != s.signals[t] && !Change(s.signals, t)
    ensures 1 <= s.barsHeld[t] <= 3
  {
    assert HeldAt(s, t) && HeldAt(s, t - 1) && HeldAt(s, t - 2) && HeldAt(s, t - 3);
  }

  /** Strict exits, for every persistence. With one bar, a side is left at t exactly when it was entered
      at t - 4 and the signal stayed unchanged since. With more, it is left exactly when it was entered
      at t - 4 and the opposite side is newly confirmed at t. */
  lemma StrictExitExactly(cfg: Settings, bars: seq<Bar>, t: nat)
    requires t < |bars|
    ensures var s := SeriesOf(cfg.core, bars, FirstBar(cfg.core, |bars|));
            && (LongStrictExit(cfg, bars, s, t) <==>
                  LongEntry(cfg, bars, s, t - 4)
                  && if cfg.persistenceBars <= 1 then Unchanged(s.signals, t - 3, t) else NewSell(cfg, bars, s, t))
            && (ShortStrictExit(cfg, bars, s, t) <==>
                  ShortEntry(cfg, bars, s, t - 4)
                  && if cfg.persistenceBars <= 1 then Unchanged(s.signals, t - 3, t) else NewBuy(cfg, bars, s, t))
  {
    var first := FirstBar(cfg.core, |bars|);
    var s := SeriesOf(cfg.core, bars, first);
    LoopCountsHeld(cfg.core, bars, first, |bars|);
    if cfg.persistenceBars <= 1 {
      EntryChangesSignal(cfg, bars, s, t - 4);
      OneArmIsDead(cfg, bars, t);
      if Change(s.signals, t - 4) {
        HeldFourMeansUnchanged(s, t);
      }
    } else {
      LateEntryKeepsSignal(cfg, bars, s, t - 4);
      LateNewKeepsSignal(cfg, bars, s, t);
      OneArmIsDead(cfg, bars, t);
      if t >= 4 && s.signals[t - 4] != s.signals[t] && !Change(s.signals, t) {
        FlippedIsHeldLess(s, t);
      }
    }
  }

  /** Of the two arms of a strict exit one is always dead. With a persistence of one bar it is the arm for
      positions held less than four bars: the opposite signal it waits for is a change of signal, and that
      resets the counter to zero. With more it is the arm for positions held four bars: an entry no longer
      falls on a change of signal. */
  lemma OneArmIsDead(cfg: Settings, bars: seq<Bar>, t: nat)
    requires t < |bars|
    ensures var s := SeriesOf(cfg.core, bars, FirstBar(cfg.core, |bars|));
            if cfg.persistenceBars <= 1 then
              NewBuy(cfg, bars, s, t) || NewSell(cfg, bars, s, t) ==> s.barsHeld[t] == 0
            else
              LongEntry(cfg, bars, s, t - 4) || ShortEntry(cfg, bars, s, t - 4) ==> s.barsHeld[t] != 4
  {
    var first := FirstBar(cfg.core, |bars|);
    var s := SeriesOf(cfg.core, bars, first);
    LoopCountsHeld(cfg.core, bars, first, |bars|);
    if cfg.persistenceBars <= 1 {
      if t > 0 { assert HeldAt(s, t); }
    } else {
      LateEntryKeepsSignal(cfg, bars, s, t - 4);
      if t >= 5 && !Change(s.signals, t - 4) {
        HeldIsNotNegative(s, t - 5);
        KeptSignalIsNotHeldFour(s, t);
      }
    }
  }

  /** With a persistence of five bars or more no strict exit ever fires: the opposite side cannot be
      confirmed within the four bars the exit looks back over. */
  lemma LongPersistenceNeverExits(cfg: Settings, bars: seq<Bar>, t: nat)
    requires t < |bars| && cfg.persistenceBars >= 5
    ensures var s := SeriesOf(cfg.core, bars, FirstBar(cfg.core, |bars|));
            !LongStrictExit(cfg, bars, s, t) && !ShortStrictExit(cfg, bars, s, t)
  {
    var s := SeriesOf(cfg.core, bars, FirstBar(cfg.core, |bars|));
    StrictExitExactly(cfg, bars, t);
    LateEntryKeepsSignal(cfg, bars, s, t - 4);
    assert NewSell(cfg, bars, s, t) ==> Sell(bars, s, t - 4);
    assert NewBuy(cfg, bars, s, t) ==> Buy(bars, s, t - 4);
  }

  /** With a persistence of two the early arm does fire on these signals: long at bar 5, opposite side confirmed
      at bar 9. */
  lemma EarlyArmCase(cfg: Settings, bars: seq<Bar>, s: Series)
    requires cfg.persistenceBars == 2 && cfg.cooldownBars <= 0 && !cfg.useKernelFilter && !cfg.blockEarlyFlips
    requires cfg.core.minMagnitude <= 0.0 && Fits(bars, s) && CountsHeld(s)
    requires s.signals == [0, 0, 0, 0, 1, 1, 1, 1, -1, -1]
    requires forall i :: 0 <= i < |bars| ==> bars[i].emaUp && bars[i].smaUp && bars[i].emaDown && bars[i].smaDown
    ensures s.barsHeld[9] == 1 && LongStrictExit(cfg, bars, s, 9)
  {
    assert Change(s.signals, 4) && Change(s.signals, 8) && !Change(s.signals, 9);
    assert HeldAt(s, 8) && HeldAt(s, 9);
    assert EverChanged(s.signals, 4) && EverChanged(s.signals, 5) && EverChanged(s.signals, 8)
        && EverChanged(s.signals, 9);
    assert !Buy(bars, s, 3) && Buy(bars, s, 4) && Buy(bars, s, 5);
    assert BuysHeld(bars, s, 2, 5) && !BuysHeld(bars, s, 2, 4);
    assert !Sell(bars, s, 7) && Sell(bars, s, 8) && Sell(bars, s, 9);
    assert SellsHeld(bars, s, 2, 9) && !SellsHeld(bars, s, 2, 8);
    assert NewSell(cfg, bars, s, 9) && LongCandidate(cfg, bars, s, 5);
    var candidates := EntryCooldown.Candidates(LongCandidates(cfg, bars, s), ShortCandidates(cfg, bars, s));
    assert EntryCooldown.Accepted(candidates, 0, 5) by {
      if !EntryCooldown.Accepted(candidates, 0, 5) {
        EntryCooldown.RejectedOnlyWhenClose(candidates, 0, 5);
      }
    }
  }

  lemma {:induction false} BarsSinceFinds(condition: seq<bool>, t: nat)
    requires t < |condition|
    ensures BarsSince(condition, t).None? <==> forall j :: 0 <= j <= t ==> !condition[j]
    ensures BarsSince(condition, t).Some? ==>
              var at := t - BarsSince(condition, t).value;
              0 <= at && condition[at] && forall j :: at < j <= t ==> !condition[j]
  {
    if !condition[t] && t > 0 {
      BarsSinceFinds(condition, t - 1);
    }
  }

  ghost predicate NoneFrom(exits: seq<bool>, e: int, t: int) {
    forall j :: e <= j <= t && 0 <= j < |exits| ==> !exits[j]
  }

  ghost predicate SomeBefore(exits: seq<bool>, e: int) {
    exists g :: 0 <= g < e && g < |exits| && exits[g]
  }

  /** Armed: some entry up to t has no exit condition at or after it, and one before it. */
  lemma ArmedExactly(exits: seq<bool>, entries: seq<bool>, t: nat)
    requires |exits| == |entries| && t < |exits|
    ensures ExitArmed(exits, entries, t) <==>
            exists e :: 0 <= e <= t && entries[e] && NoneFrom(exits, e, t) && SomeBefore(exits, e)
  {
    BarsSinceFinds(exits, t);
    BarsSinceFinds(entries, t);
    var x, n := BarsSince(exits, t), BarsSince(entries, t);
    if ExitArmed(exits, entries, t) {
      var e, g := t - n.value, t - x.value;
      assert entries[e] && exits[g];
      assert NoneFrom(exits, e, t) && SomeBefore(exits, e);
    }
    if e :| 0 <= e <= t && entries[e] && NoneFrom(exits, e, t) && SomeBefore(exits, e) {
      var g :| 0 <= g < e && exits[g];
      assert x.Some? && n.Some?;
      assert t - x.value < e;
      assert t - n.value >= e;
    }
  }

  ghost predicate ChangeBefore(bars: seq<Bar>, e: int) {
    exists g :: 0 <= g < e && BearishChange(bars, g)
  }

  ghost predicate NoBearishChange(bars: seq<Bar>, from: int, to: int) {
    forall j :: from <= j < to ==> !BearishChange(bars, j)
  }

  lemma BearishAlertsAre(cfg: Settings, bars: seq<Bar>, e: nat, t: nat)
    requires e < t < |bars| && !cfg.useKernelSmoothing
    ensures NoneFrom(BearishAlerts(cfg, bars), e, t - 1) <==> NoBearishChange(bars, e, t)
    ensures SomeBefore(BearishAlerts(cfg, bars), e) <==> ChangeBefore(bars, e)
  {
    var exits := BearishAlerts(cfg, bars);
    if NoneFrom(exits, e, t - 1) {
      forall j | e <= j < t ensures !BearishChange(bars, j) {
        assert !exits[j];
      }
    }
    if SomeBefore(exits, e) {
      var g :| 0 <= g < e && exits[g];
      assert BearishChange(bars, g);
    }
    if ChangeBefore(bars, e) {
      var g :| 0 <= g < e && BearishChange(bars, g);
      assert exits[g];
    }
  }

  /** Dynamic exits: a long is left at t exactly when t is a bearish change of the kernel, and some
      long entry before t has had no bearish change since, but one before it. */
  lemma DynamicExitExactly(cfg: Settings, bars: seq<Bar>, s: Series, t: nat)
    requires Fits(bars, s) && t < |bars| && !cfg.useKernelSmoothing
    ensures LongDynamicExit(cfg, bars, s, t) <==>
            BearishChange(bars, t) &&
            exists e :: 0 <= e < t && LongEntry(cfg, bars, s, e) && NoBearishChange(bars, e, t) && ChangeBefore(bars, e)
  {
    var entries := LongEntries(cfg, bars, s);
    if BearishChange(bars, t) {
      ArmedExactly(BearishAlerts(cfg, bars), entries, t - 1);
      forall e | 0 <= e < t
        ensures entries[e] == LongEntry(cfg, bars, s, e)
        ensures NoneFrom(BearishAlerts(cfg, bars), e, t - 1) <==> NoBearishChange(bars, e, t)
        ensures SomeBefore(BearishAlerts(cfg, bars), e) <==> ChangeBefore(bars, e)
      {
        BearishAlertsAre(cfg, bars, e, t);
      }
    }
  }

  /** Two dynamic long exits always have a long entry strictly between them. */
  lemma EntryBetweenDynamicExits(cfg: Settings, bars: seq<Bar>, s: Series, t1: nat, t2: nat)
    requires Fits(bars, s) && t1 < t2 < |bars| && !cfg.useKernelSmoothing
    requires LongDynamicExit(cfg, bars, s, t1) && LongDynamicExit(cfg, bars, s, t2)
    ensures exists e :: t1 < e < t2 && LongEntry(cfg, bars, s, e)
  {
    DynamicExitExactly(cfg, bars, s, t2);
    var e :| 0 <= e < t2 && LongEntry(cfg, bars, s, e) && NoBearishChange(bars, e, t2) && ChangeBefore(bars, e);
    assert BearishChange(bars, t1);
  }

  ghost predicate BullishChangeBefore(bars: seq<Bar>, e: int) {
    exists g :: 0 <= g < e && BullishChange(bars, g)
  }

  ghost predicate NoBullishChange(bars: seq<Bar>, from: int, to: int) {
    forall j :: from <= j < to ==> !BullishChange(bars, j)
  }

  lemma BullishAlertsAre(cfg: Settings, bars: seq<Bar>, e: nat, t: nat)
    requires e < t < |bars| && !cfg.useKernelSmoothing
    ensures NoneFrom(BullishAlerts(cfg, bars), e, t - 1) <==> NoBullishChange(bars, e, t)
    ensures SomeBefore(BullishAlerts(cfg, bars), e) <==> BullishChangeBefore(bars, e)
  {
    var exits := BullishAlerts(cfg, bars);
    if NoneFrom(exits, e, t - 1) {
      forall j | e <= j < t ensures !BullishChange(bars, j) {
        assert !exits[j];
      }
    }
    if SomeBefore(exits, e) {
      var g :| 0 <= g < e && exits[g];
      assert BullishChange(bars, g);
    }
    if BullishChangeBefore(bars, e) {
      var g :| 0 <= g < e && BullishChange(bars, g);
      assert exits[g];
    }
  }

  /** The short side, where the roles of rising and falling are exchanged. */
  lemma ShortDynamicExitExactly(cfg: Settings, bars: seq<Bar>, s: Series, t: nat)
    requires Fits(bars, s) && t < |bars| && !cfg.useKernelSmoothing
    ensures ShortDynamicExit(cfg, bars, s, t) <==>
            BullishChange(bars, t) &&
            exists e :: 0 <= e < t && ShortEntry(cfg, bars, s, e) && NoBullishChange(bars, e, t)
              && BullishChangeBefore(bars, e)
  {
    var entries := ShortEntries(cfg, bars, s);
    if BullishChange(bars, t) {
      ArmedExactly(BullishAlerts(cfg, bars), entries, t - 1);
      forall e | 0 <= e < t
        ensures entries[e] == ShortEntry(cfg, bars, s, e)
        ensures NoneFrom(BullishAlerts(cfg, bars), e, t - 1) <==> NoBullishChange(bars, e, t)
        ensures SomeBefore(BullishAlerts(cfg, bars), e) <==> BullishChangeBefore(bars, e)
      {
        BullishAlertsAre(cfg, bars, e, t);
      }
    }
  }

  /** Two dynamic short exits always have a short entry strictly between them. */
  lemma EntryBetweenShortDynamicExits(cfg: Settings, bars: seq<Bar>, s: Series, t1: nat, t2: nat)
    requires Fits(bars, s) && t1 < t2 < |bars| && !cfg.useKernelSmoothing
    requires ShortDynamicExit(cfg, bars, s, t1) && ShortDynamicExit(cfg, bars, s, t2)
    ensures exists e :: t1 < e < t2 && ShortEntry(cfg, bars, s, e)
  {
    ShortDynamicExitExactly(cfg, bars, s, t2);
    var e :| 0 <= e < t2 && ShortEntry(cfg, bars, s, e) && NoBullishChange(bars, e, t2) && BullishChangeBefore(bars, e);
    assert BullishChange(bars, t1);
  }

  /** Entries of a run are spaced by the cooldown, on both sides together. */
  lemma EntriesAreSpaced(cfg: Settings, bars: seq<Bar>, s: Series, i: int, j: int)
    requires Fits(bars, s) && i < j
    requires LongEntry(cfg, bars, s, i) || ShortEntry(cfg, bars, s, i)
    requires LongEntry(cfg, bars, s, j) || ShortEntry(cfg, bars, s, j)
    ensures j - i > cfg.cooldownBars
  {
    var c := EntryCooldown.Candidates(LongCandidates(cfg, bars, s), ShortCandidates(cfg, bars, s));
    var d := EntryCooldown.Cooldown(cfg.cooldownBars);
    EntryCooldown.AcceptedAreSpaced(c, d);
    assert i in EntryCooldown.AcceptedBefore(c, d, |c|) && j in EntryCooldown.AcceptedBefore(c, d, |c|);
  }
}
