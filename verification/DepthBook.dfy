/** The exchange's depth book as an append-only log of absolute-quantity updates, and the one
    fact that makes replication sound: a summary of a log slice, applied to any earlier book that
    the slice reaches back to, gives the book at the slice's end. */
module DepthBook {

  datatype Level = Level(price: real, qty: real)

  /** One side of a book: price to resting quantity. */
  type Side = map<real, real>

  /** `_apply_depth_side`: quantities are absolute, and zero removes the level. */
  function ApplySide(side: Side, updates: seq<Level>): Side {
    if updates == [] then side
    else
      var before := ApplySide(side, updates[..|updates| - 1]);
      var last := updates[|updates| - 1];
      if last.qty == 0.0 then before - {last.price} else before[last.price := last.qty]
  }

  /** The server's history of one side: entry k holds the changes that update id k + 1 made. */
  type SideLog = seq<seq<Level>>

  datatype Log = Log(bids: SideLog, asks: SideLog) {
    ghost predicate WellFormed() {
      |bids| == |asks| && NonNegative(bids) && NonNegative(asks)
    }
  }

  ghost predicate NonNegative(log: SideLog) {
    forall k, i :: 0 <= k < |log| && 0 <= i < |log[k]| ==> log[k][i].qty >= 0.0
  }

  /** The server's side after update id n. */
  ghost function SideAt(log: SideLog, n: nat): Side
    requires n <= |log|
  {
    if n == 0 then map[] else ApplySide(SideAt(log, n - 1), log[n - 1])
  }

  function Qty(side: Side, price: real): real {
    if price in side then side[price] else 0.0
  }

  ghost predicate Quotes(levels: seq<Level>, price: real) {
    exists i :: 0 <= i < |levels| && levels[i].price == price
  }

  /** Some update id in (lo, hi] changed this price. */
  ghost predicate Touched(log: SideLog, lo: nat, hi: nat, price: real)
    requires hi <= |log|
  {
    exists k :: lo <= k < hi && Quotes(log[k], price)
  }

  /** `levels` summarises the update ids (lo, hi]: whatever it quotes has the quantity resting at
      hi, and it quotes at least every price those ids changed. */
  ghost predicate Summarises(log: SideLog, lo: nat, hi: nat, levels: seq<Level>)
    requires hi <= |log|
  {
    && (forall i :: 0 <= i < |levels| ==> levels[i].qty == Qty(SideAt(log, hi), levels[i].price))
    && (forall p :: Touched(log, lo, hi, p) ==> Quotes(levels, p))
  }

  ghost predicate Positive(side: Side) {
    forall p :: p in side ==> side[p] > 0.0
  }

  lemma {:induction false} ApplyKeepsUnquoted(side: Side, updates: seq<Level>, p: real)
    requires !Quotes(updates, p)
    ensures Qty(ApplySide(side, updates), p) == Qty(side, p)
  {
    if updates != [] {
      var init := updates[..|updates| - 1];
      assert forall i :: 0 <= i < |init| ==> init[i] == updates[i];
      ApplyKeepsUnquoted(side, init, p);
      assert updates[|updates| - 1].price != p;
    }
  }

  /** A quoted price ends with the quantity it is quoted at, when all its quotes agree. */
  lemma {:induction false} ApplySetsQuoted(side: Side, updates: seq<Level>, p: real, q: real)
    requires Quotes(updates, p)
    requires forall i :: 0 <= i < |updates| && updates[i].price == p ==> updates[i].qty == q
    ensures Qty(ApplySide(side, updates), p) == q
  {
    var init := updates[..|updates| - 1];
    var last := updates[|updates| - 1];
    if last.price != p {
      var i :| 0 <= i < |updates| && updates[i].price == p;
      assert init[i].price == p;
      ApplySetsQuoted(side, init, p, q);
    }
  }

  lemma {:induction false} ApplyKeepsPositive(side: Side, updates: seq<Level>)
    requires Positive(side)
    requires forall i :: 0 <= i < |updates| ==> updates[i].qty >= 0.0
    ensures Positive(ApplySide(side, updates))
  {
    if updates != [] {
      ApplyKeepsPositive(side, updates[..|updates| - 1]);
    }
  }

  /** The server never rests a zero or negative quantity. */
  lemma {:induction false} ServerIsPositive(log: SideLog, n: nat)
    requires n <= |log| && NonNegative(log)
    ensures Positive(SideAt(log, n))
  {
    if n > 0 {
      ServerIsPositive(log, n - 1);
      ApplyKeepsPositive(SideAt(log, n - 1), log[n - 1]);
    }
  }

  lemma {:induction false} UntouchedKeepsQty(log: SideLog, lo: nat, hi: nat, p: real)
    requires lo <= hi <= |log| && !Touched(log, lo, hi, p)
    ensures Qty(SideAt(log, hi), p) == Qty(SideAt(log, lo), p)
  {
    if lo < hi {
      assert !Touched(log, lo, hi - 1, p);
      UntouchedKeepsQty(log, lo, hi - 1, p);
      assert !Quotes(log[hi - 1], p);
      ApplyKeepsUnquoted(SideAt(log, hi - 1), log[hi - 1], p);
    }
  }

  /** Positive sides are determined by their quantities. */
  lemma SameQuantitiesSameSide(a: Side, b: Side)
    requires Positive(a) && Positive(b)
    requires forall p :: Qty(a, p) == Qty(b, p)
    ensures a == b
  {
    forall p ensures (p in a <==> p in b) && (p in a ==> a[p] == b[p]) {
      assert Qty(a, p) == Qty(b, p);
    }
  }

  /** The replication step: a summary of (lo, u] applied to the book at any L in [lo, u] gives the
      book at u. Updates the local book already has are harmless, because quantities are absolute. */
  lemma SummaryCatchesUp(log: SideLog, lo: nat, L: nat, u: nat, levels: seq<Level>)
    requires lo <= L <= u <= |log| && NonNegative(log)
    requires Summarises(log, lo, u, levels)
    ensures ApplySide(SideAt(log, L), levels) == SideAt(log, u)
  {
    var local, target := ApplySide(SideAt(log, L), levels), SideAt(log, u);
    ServerIsPositive(log, L);
    ServerIsPositive(log, u);
    forall i | 0 <= i < |levels| ensures levels[i].qty >= 0.0 {
      assert levels[i].qty == Qty(target, levels[i].price);
    }
    ApplyKeepsPositive(SideAt(log, L), levels);
    forall p ensures Qty(local, p) == Qty(target, p) {
      if Quotes(levels, p) {
        ApplySetsQuoted(SideAt(log, L), levels, p, Qty(target, p));
      } else {
        ApplyKeepsUnquoted(SideAt(log, L), levels, p);
        assert !Touched(log, L, u, p) by {
          if Touched(log, L, u, p) { assert Touched(log, lo, u, p); }
        }
        UntouchedKeepsQty(log, L, u, p);
      }
    }
    SameQuantitiesSameSide(local, target);
  }

  lemma {:induction false} LogPrefixSameSide(log: SideLog, more: SideLog, n: nat)
    requires n <= |log| && log <= more
    ensures SideAt(more, n) == SideAt(log, n)
  {
    if n > 0 {
      LogPrefixSameSide(log, more, n - 1);
    }
  }

  /** What was a summary when it was sent stays one as the server's log grows. */
  lemma SummaryStays(log: SideLog, more: SideLog, lo: nat, hi: nat, levels: seq<Level>)
    requires hi <= |log| && log <= more && Summarises(log, lo, hi, levels)
    ensures Summarises(more, lo, hi, levels)
  {
    LogPrefixSameSide(log, more, hi);
    forall p | Touched(more, lo, hi, p) ensures Quotes(levels, p) {
      var k :| lo <= k < hi && Quotes(more[k], p);
      assert Quotes(log[k], p);
      assert Touched(log, lo, hi, p);
    }
  }

  /** The dict comprehension that loads a REST snapshot: positive quantities only, last one wins. */
  function SideOfSnapshot(levels: seq<Level>): Side {
    if levels == [] then map[]
    else
      var before := SideOfSnapshot(levels[..|levels| - 1]);
      var last := levels[|levels| - 1];
      if last.qty > 0.0 then before[last.price := last.qty] else before
  }

  lemma {:induction false} SnapshotEntries(levels: seq<Level>, side: Side)
    requires Positive(side)
    requires forall i :: 0 <= i < |levels| ==> levels[i].qty == Qty(side, levels[i].price)
    ensures forall p :: p in SideOfSnapshot(levels) <==> Quotes(levels, p) && p in side
    ensures forall p :: p in SideOfSnapshot(levels) ==> p in side && SideOfSnapshot(levels)[p] == side[p]
  {
    if levels != [] {
      var init, last := levels[..|levels| - 1], levels[|levels| - 1];
      SnapshotEntries(init, side);
      assert last.qty == Qty(side, last.price);
      assert levels == init + [last];
      forall p ensures Quotes(levels, p) <==> Quotes(init, p) || p == last.price {
        if Quotes(init, p) {
          var i :| 0 <= i < |init| && init[i].price == p;
          assert levels[i].price == p;
        }
        if p == last.price { assert levels[|levels| - 1].price == p; }
        if Quotes(levels, p) && p != last.price {
          var i :| 0 <= i < |levels| && levels[i].price == p;
          assert init[i].price == p;
        }
      }
    }
  }

  /** A snapshot that lists the whole book loads as that book. */
  lemma SnapshotLoadsBook(levels: seq<Level>, side: Side)
    requires Positive(side)
    requires forall i :: 0 <= i < |levels| ==> levels[i].qty == Qty(side, levels[i].price)
    requires forall p :: p in side ==> Quotes(levels, p)
    ensures SideOfSnapshot(levels) == side
  {
    SnapshotEntries(levels, side);
    forall p | p in side ensures p in SideOfSnapshot(levels) {
      assert Quotes(levels, p);
    }
    var loaded := SideOfSnapshot(levels);
    assert forall p :: p in loaded.Keys <==> p in side.Keys;
    assert forall p :: p in loaded ==> loaded[p] == side[p];
    assert loaded == side;
  }
}
