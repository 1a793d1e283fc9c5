/** What the exchange accepts, in its own terms, and that every order sent for a packet is of that kind and loses as
    little of the asked size and price as the rounding allows. */
module ExchangeRules {
  import opened Options
  import opened Decimals
  import opened PriceRules
  import opened HyperliquidOrders
  import opened Sides

  /** A price the exchange takes for an asset with these size decimals: whole, or of at most five significant figures,
      with decimals that together with the size decimals are at most six, or eight on the spot market. */
  ghost predicate Takes(v: real, sizeDecimals: int, isSpot: bool) {
    v > 0.0 &&
    (v == v.Floor as real
     || exists m: nat, e: nat ::
          Written(v, m, e) && 0 < m < 100_000 && e + sizeDecimals <= if isSpot then 8 else 6)
  }

  lemma NoDecimalsIsWhole(v: real, m: nat, e: nat)
    requires Written(v, m, e)
    ensures e == 0 ==> v == v.Floor as real
  {
  }

  lemma TakesIsLegal(rules: AssetRules, v: real)
    ensures Takes(v, rules.sizeDecimals, rules.isSpot) <==> LegalPrice(v, rules.MaxPriceDecimals())
  {
    var limit := if rules.isSpot then 8 else 6;
    if v > 0.0 && v != v.Floor as real {
      if Takes(v, rules.sizeDecimals, rules.isSpot) {
        var m: nat, e: nat :| Written(v, m, e) && 0 < m < 100_000 && e + rules.sizeDecimals <= limit;
        assert e <= rules.MaxPriceDecimals();
      }
      if LegalPrice(v, rules.MaxPriceDecimals()) {
        var m: nat, e: nat :| Written(v, m, e) && 0 < m < 100_000 && e <= rules.MaxPriceDecimals();
        NoDecimalsIsWhole(v, m, e);
      }
    }
  }

  /** With more size decimals than the limit the exchange takes whole prices only. */
  lemma WholeOnly(v: real, sizeDecimals: int, isSpot: bool)
    requires sizeDecimals >= if isSpot then 8 else 6
    ensures Takes(v, sizeDecimals, isSpot) <==> v > 0.0 && v == v.Floor as real
  {
    if Takes(v, sizeDecimals, isSpot) && v != v.Floor as real {
      var m: nat, e: nat :| Written(v, m, e) && 0 < m < 100_000 && e + sizeDecimals <= if isSpot then 8 else 6;
      NoDecimalsIsWhole(v, m, e);
    }
  }

  /** What normalising a price returns is the price nearest to it, on the side asked for, that the exchange takes. It
      raises, rounding down, exactly when there is none, and, rounding up, exactly on prices that are not positive. */
  lemma NormalizedIsNearestTaken(rules: AssetRules, p: real, rounding: Rounding, r: Result<Option<real>>)
    requires NormalizesTo(Some(rules), Some(p), rounding, r)
    ensures r.Ok? ==>
              && r.value.Some? && Takes(r.value.value, rules.sizeDecimals, rules.isSpot)
              && (if rounding == Floor then r.value.value <= p else r.value.value >= p)
              && forall v :: Takes(v, rules.sizeDecimals, rules.isSpot) ==>
                   if rounding == Floor then v > p || v <= r.value.value else v < p || v >= r.value.value
    ensures rounding == Floor ==> (r.Err? <==> forall v :: Takes(v, rules.sizeDecimals, rules.isSpot) ==> v > p)
    ensures rounding == Ceiling ==> (r.Err? <==> p <= 0.0)
  {
    forall v: real ensures Takes(v, rules.sizeDecimals, rules.isSpot) <==> LegalPrice(v, rules.MaxPriceDecimals()) {
      TakesIsLegal(rules, v);
    }
    RaisesExactlyWhen(p, rules.MaxPriceDecimals());
  }

  function LotDecimals(sizeDecimals: int): nat {
    if sizeDecimals > 0 then sizeDecimals else 0
  }

  /** A whole number of the smallest size, 10^-sizeDecimals, or of one where there are none. */
  ghost predicate WholeLots(size: real, sizeDecimals: int) {
    exists n: nat :: Written(size, n, LotDecimals(sizeDecimals))
  }

  lemma NoMoreLots(v: real, k: nat, r: real, n: nat, size: real, d: nat)
    requires Written(v, k, d) && Written(r, n, d) && Scale(size, d) < n as real + 1.0 && v <= size
    ensures v <= r
  {
    ScaleOrder(size, v, d);
    WholeBelow(k, n, Scale(size, d));
    ScaleOrder(r, v, d);
  }

  lemma WholeBelow(k: nat, n: nat, x: real)
    requires k as real <= x < n as real + 1.0
    ensures k as real <= n as real
  {
    assert k <= x.Floor <= n;
  }

  lemma LotsAreAtLeastOne(v: real, k: nat, d: nat)
    requires Written(v, k, d) && v > 0.0
    ensures k >= 1
  {
    SamePositive(v, k, d);
  }

  lemma SizeInLots(rules: AssetRules, size: real, r: real)
    requires SizesTo(Some(rules), size, Ok(r))
    ensures 0.0 < r <= size && WholeLots(r, rules.sizeDecimals)
    ensures forall v :: WholeLots(v, rules.sizeDecimals) && v <= size ==> v <= r
  {
    var d := LotDecimals(rules.sizeDecimals);
    var n := Scale(r, d).Floor;
    SamePositive(r, n, d);
    assert Written(r, n, d);
    forall v | WholeLots(v, rules.sizeDecimals) && v <= size ensures v <= r {
      var k: nat :| Written(v, k, d);
      NoMoreLots(v, k, r, n, size, d);
    }
  }

  lemma NoLotFits(rules: AssetRules, size: real, v: real)
    requires SizesTo(Some(rules), size, Err) && WholeLots(v, rules.sizeDecimals) && v > 0.0
    ensures v > size
  {
    var d := LotDecimals(rules.sizeDecimals);
    var k: nat :| Written(v, k, d);
    LotsAreAtLeastOne(v, k, d);
    ScaleOrder(size, v, d);
  }

  /** What normalising a size returns is the largest positive number of whole lots within it; it raises exactly when
      there is none. */
  lemma NormalizedIsMostLots(rules: AssetRules, size: real, r: Result<real>)
    requires SizesTo(Some(rules), size, r)
    ensures r.Ok? ==>
              && 0.0 < r.value <= size && WholeLots(r.value, rules.sizeDecimals)
              && forall v :: WholeLots(v, rules.sizeDecimals) && v <= size ==> v <= r.value
    ensures r.Err? <==> forall v :: WholeLots(v, rules.sizeDecimals) && v > 0.0 ==> v > size
  {
    if r.Ok? {
      SizeInLots(rules, size, r.value);
    } else {
      forall v | WholeLots(v, rules.sizeDecimals) && v > 0.0 ensures v > size {
        NoLotFits(rules, size, v);
      }
    }
  }

  function Leg(packet: Packet, kind: Protection): Option<real> {
    match kind
    case TakeProfit => packet.tpPrice
    case StopLoss => packet.slPrice
  }

  /** An accepted packet with a size gets one protective order for each leg that has a price, with the packet's
      direction, size and that price, the take-profit first; any other packet gets none. */
  lemma IntentsExactly(packet: Packet, kind: Protection)
    ensures var intents := ProtectiveIntents(packet);
            && ((exists i :: 0 <= i < |intents| && intents[i].kind == kind)
                <==> packet.accepted && packet.size > 0.0 && Leg(packet, kind).Some?)
            && (forall i :: 0 <= i < |intents| && intents[i].kind == kind
                  ==> intents[i] == Intent(kind, packet.direction, packet.size, Leg(packet, kind)))
            && (forall i, j :: 0 <= i < j < |intents| ==> intents[i].kind == TakeProfit && intents[j].kind == StopLoss)
  {
    var intents := ProtectiveIntents(packet);
    if packet.accepted && packet.size > 0.0 && Leg(packet, kind).Some? {
      assert intents[if kind == TakeProfit then 0 else |intents| - 1].kind == kind;
    }
  }

  /** A trigger that closes a position of the given direction: a short is bought back, a long sold. */
  ghost predicate Closes(order: Order, direction: Option<Side>) {
    order.isBuy <==> direction != Some(Long)
  }

  /** The order for one leg: on the closing side, of the largest size within the packet's, and triggered at the price
      the exchange takes that is nearest to the leg's, moved toward the entry if at all. */
  ghost predicate Protects(order: Order, rules: AssetRules, raw: Packet, kind: Protection) {
    && Closes(order, raw.direction)
    && WholeLots(order.size, rules.sizeDecimals) && 0.0 < order.size <= raw.size
    && Takes(order.triggerPrice, rules.sizeDecimals, rules.isSpot)
    && Leg(raw, kind).Some?
    && if (kind == TakeProfit) == (raw.direction == Some(Long)) then order.triggerPrice <= Leg(raw, kind).value
       else order.triggerPrice >= Leg(raw, kind).value
  }

  /** From the raw packet to the exchange: normalise, build the protective intents, submit each. */
  method SubmitBracket(rules: AssetRules, raw: Packet) returns (r: Result<seq<Order>>)
    requires raw.accepted
    ensures r.Err? ==>
              || SizesTo(Some(rules), raw.size, Err)
              || NormalizesTo(Some(rules), raw.tpPrice, ProtectiveRounding(raw.direction, TakeProfit), Err)
              || NormalizesTo(Some(rules), raw.slPrice, ProtectiveRounding(raw.direction, StopLoss), Err)
    ensures r.Ok? ==> |r.value| == (if raw.tpPrice.Some? then 1 else 0) + (if raw.slPrice.Some? then 1 else 0)
    ensures r.Ok? && raw.tpPrice.Some? ==> Protects(r.value[0], rules, raw, TakeProfit)
    ensures r.Ok? && raw.slPrice.Some? ==> Protects(r.value[|r.value| - 1], rules, raw, StopLoss)
  {
    var normalized := NormalizePacket(Some(rules), raw);
    if normalized.Err? { return Err; }
    var packet := normalized.value;
    NormalizedIsMostLots(rules, raw.size, Ok(packet.size));
    var intents := ProtectiveIntents(packet);
    var orders := [];
    for i := 0 to |intents|
      invariant |orders| == i
      invariant forall j :: 0 <= j < i ==> Protects(orders[j], rules, raw, intents[j].kind)
    {
      var order := SubmitFromPacket(Some(rules), raw, packet, i);
      LegIsNearest(rules, raw, packet, intents[i].kind);
      orders := orders + [order];
    }
    return Ok(orders);
  }

  lemma LegIsNearest(rules: AssetRules, raw: Packet, packet: Packet, kind: Protection)
    requires raw.accepted && PacketNormalizesTo(Some(rules), raw, Ok(packet)) && Leg(packet, kind).Some?
    ensures Leg(raw, kind).Some? && Takes(Leg(packet, kind).value, rules.sizeDecimals, rules.isSpot)
    ensures if (kind == TakeProfit) == (raw.direction == Some(Long))
            then Leg(packet, kind).value <= Leg(raw, kind).value
            else Leg(packet, kind).value >= Leg(raw, kind).value
  {
    var rounding := ProtectiveRounding(raw.direction, kind);
    if Leg(raw, kind).Some? {
      NormalizedIsNearestTaken(rules, Leg(raw, kind).value, rounding, Ok(Leg(packet, kind)));
    }
  }
}
