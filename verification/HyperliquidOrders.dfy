/** Price and size normalisation for Hyperliquid orders, from decision packet to submitted order. */
module HyperliquidOrders {
  import opened Options
  import opened Decimals
  import opened PriceRules
  import opened Sides

  datatype Rounding = Floor | Ceiling
  datatype Protection = TakeProfit | StopLoss

  /** What `_lookup_asset_rules` finds for a symbol. */
  datatype AssetRules = AssetRules(sizeDecimals: int, isSpot: bool) {
    function MaxPriceDecimals(): nat {
      var d := (if isSpot then 8 else 6) - sizeDecimals;
      if d < 0 then 0 else d
    }

    function SizeDecimals(): nat {
      if sizeDecimals > 0 then sizeDecimals else 0
    }
  }

  /** `quantize_to_step` to the step 10^-decimals. */
  function Quantize(x: real, decimals: nat, rounding: Rounding): Dec {
    match rounding
    case Floor => Dec(Scale(x, decimals).Floor, decimals)
    case Ceiling => Dec(Decimals.Ceil(Scale(x, decimals)), decimals)
  }

  ghost predicate OnSide(v: real, p: real, rounding: Rounding) {
    if rounding == Floor then v <= p else v >= p
  }

  /** r is the legal price nearest to p on the side rounding allows. */
  ghost predicate Best(r: real, p: real, maxDecimals: nat, rounding: Rounding) {
    && LegalPrice(r, maxDecimals) && OnSide(r, p, rounding)
    && forall v :: LegalPrice(v, maxDecimals) && OnSide(v, p, rounding) ==> OnSide(v, r, rounding)
  }

  /** The prices for which normalisation raises. */
  ghost predicate Unroundable(p: real, maxDecimals: nat, rounding: Rounding) {
    if rounding == Floor then Scale(p, maxDecimals) < 1.0 else p <= 0.0
  }

  /** What normalising a price means: the best legal price, unless it raises. A missing price, or a
      symbol without rules, passes through. */
  ghost predicate NormalizesTo(rules: Option<AssetRules>, price: Option<real>, rounding: Rounding,
                               r: Result<Option<real>>) {
    if price.None? || rules.None? then r == Ok(price)
    else
      var p, d := price.value, rules.value.MaxPriceDecimals();
      if Unroundable(p, d, rounding) then r.Err?
      else r.Ok? && r.value.Some? && Best(r.value.value, p, d, rounding)
  }

  /** The rounded scaled price, in units of 10^-maxDecimals. */
  function RoundedUnits(p: real, maxDecimals: nat, rounding: Rounding): int {
    Quantize(p, maxDecimals, rounding).units
  }

  /** The candidate with j decimals fewer than the maximum, in units of 10^-maxDecimals. */
  function CandidateUnits(n: int, j: nat, rounding: Rounding): int {
    (if rounding == Floor then n / Pow10(j) else CeilDiv(n, Pow10(j))) * Pow10(j)
  }

  lemma CandidateScales(p: real, maxDecimals: nat, j: nat, rounding: Rounding)
    requires j <= maxDecimals
    ensures var n := RoundedUnits(p, maxDecimals, rounding);
            var c := Quantize(p, maxDecimals - j, rounding);
            && Scale(c.Value(), maxDecimals) == CandidateUnits(n, j, rounding) as real
            && (LegalPrice(c.Value(), maxDecimals) <==> LegalUnits(CandidateUnits(n, j, rounding), maxDecimals))
  {
    var c := Quantize(p, maxDecimals - j, rounding);
    ScaleAdd(p, maxDecimals - j, j);
    FloorOfScaled(Scale(p, maxDecimals - j), j);
    CeilOfScaled(Scale(p, maxDecimals - j), j);
    ScaleUndoesUnscale(c.units as real, c.decimals);
    Rescale(c.Value(), c.units, c.decimals, j);
    LegalScales(c.Value(), CandidateUnits(RoundedUnits(p, maxDecimals, rounding), j, rounding), maxDecimals);
  }

  lemma OrderInUnits(v: real, n: int, p: real, maxDecimals: nat, rounding: Rounding)
    requires Scale(v, maxDecimals) == n as real
    ensures OnSide(v, p, rounding) <==>
            (if rounding == Floor then n <= RoundedUnits(p, maxDecimals, rounding)
             else n >= RoundedUnits(p, maxDecimals, rounding))
  {
    ScaleOrder(v, p, maxDecimals);
    ScaleOrder(p, v, maxDecimals);
  }

  /** The first candidate that is legal is the best legal price. */
  lemma FirstLegalIsBest(p: real, maxDecimals: nat, j: nat, rounding: Rounding)
    requires j <= maxDecimals && RoundedUnits(p, maxDecimals, rounding) > 0
    requires TooLong(RoundedUnits(p, maxDecimals, rounding), j)
    requires LegalPrice(Quantize(p, maxDecimals - j, rounding).Value(), maxDecimals)
    ensures Best(Quantize(p, maxDecimals - j, rounding).Value(), p, maxDecimals, rounding)
  {
    var n, r := RoundedUnits(p, maxDecimals, rounding), Quantize(p, maxDecimals - j, rounding).Value();
    CandidateScales(p, maxDecimals, j, rounding);
    var c := CandidateUnits(n, j, rounding);
    DivisionBounds(n, Pow10(j));
    OrderInUnits(r, c, p, maxDecimals, rounding);
    forall v | LegalPrice(v, maxDecimals) && OnSide(v, p, rounding) ensures OnSide(v, r, rounding) {
      var other := LegalIsWholeUnits(v, maxDecimals);
      OrderInUnits(v, other, p, maxDecimals, rounding);
      if rounding == Floor {
        FloorIsGreatest(n, j, maxDecimals, other);
        ScaleOrder(r, v, maxDecimals);
      } else {
        CeilIsLeast(n, j, maxDecimals, other);
        ScaleOrder(v, r, maxDecimals);
      }
    }
  }

  lemma NotLegalIsTooLong(p: real, maxDecimals: nat, j: nat, rounding: Rounding)
    requires j <= maxDecimals && RoundedUnits(p, maxDecimals, rounding) > 0
    requires TooLong(RoundedUnits(p, maxDecimals, rounding), j)
    requires !LegalPrice(Quantize(p, maxDecimals - j, rounding).Value(), maxDecimals)
    ensures j < maxDecimals && TooLong(RoundedUnits(p, maxDecimals, rounding), j + 1)
  {
    CandidateScales(p, maxDecimals, j, rounding);
    if rounding == Floor {
      FloorFails(RoundedUnits(p, maxDecimals, rounding), j, maxDecimals);
    } else {
      CeilFails(RoundedUnits(p, maxDecimals, rounding), j, maxDecimals);
    }
  }

  lemma UnroundableUnits(p: real, maxDecimals: nat, rounding: Rounding)
    ensures RoundedUnits(p, maxDecimals, rounding) <= 0 <==> Unroundable(p, maxDecimals, rounding)
  {
    ScaleZero(maxDecimals);
    ScaleOrder(0.0, p, maxDecimals);
  }

  lemma UnroundableStays(p: real, maxDecimals: nat, decimals: nat, rounding: Rounding)
    requires RoundedUnits(p, maxDecimals, rounding) <= 0 && decimals <= maxDecimals
    ensures !IsValid(Quantize(p, decimals, rounding), maxDecimals)
  {
    var j := maxDecimals - decimals;
    ScaleAdd(p, decimals, j);
    FloorOfScaled(Scale(p, decimals), j);
    CeilOfScaled(Scale(p, decimals), j);
    MultipleBelow(0, RoundedUnits(p, maxDecimals, rounding), Pow10(j));
    DivisionBounds(RoundedUnits(p, maxDecimals, rounding), Pow10(j));
    NonPositiveFloor(RoundedUnits(p, maxDecimals, rounding), Pow10(j));
  }

  lemma NonPositiveFloor(n: int, d: nat)
    requires n <= 0 && d > 0
    ensures n / d <= 0
  {
    DivisionBounds(n, d);
    NextMultiple(0, n / d, d);
  }

  /** Rounding down raises exactly when no legal price is at or below the given one. Rounding up
      raises on the non-positive prices, although legal prices lie above them. */
  lemma RaisesExactlyWhen(p: real, maxDecimals: nat)
    ensures Unroundable(p, maxDecimals, Floor) <==> forall v :: LegalPrice(v, maxDecimals) ==> v > p
    ensures Unroundable(p, maxDecimals, Ceiling) ==> exists v :: LegalPrice(v, maxDecimals) && v >= p
  {
    if Unroundable(p, maxDecimals, Floor) {
      forall v | LegalPrice(v, maxDecimals) ensures v > p {
        var n := LegalIsWholeUnits(v, maxDecimals);
        ScaleOrder(p, v, maxDecimals);
      }
    } else {
      var least := Unscale(1.0, maxDecimals);
      ScaleUndoesUnscale(1.0, maxDecimals);
      assert Factors(1, 1, 0);
      LegalScales(least, 1, maxDecimals);
      ScaleOrder(p, least, maxDecimals);
    }
    assert LegalPrice(1.0, maxDecimals);
  }

  /** `_normalize_price`: one candidate for each number of decimals, most decimals first. */
  method NormalizePrice(rules: Option<AssetRules>, price: Option<real>, rounding: Rounding)
    returns (r: Result<Option<real>>)
    ensures NormalizesTo(rules, price, rounding, r)
  {
    if price.None? || rules.None? {
      return Ok(price);
    }
    var p, maxDecimals := price.value, rules.value.MaxPriceDecimals();
    ghost var n := RoundedUnits(p, maxDecimals, rounding);
    UnroundableUnits(p, maxDecimals, rounding);
    for decimals := maxDecimals + 1 downto 0
      invariant n > 0 ==> decimals > 0 && TooLong(n, maxDecimals + 1 - decimals)
    {
      var candidate := Quantize(p, decimals, rounding);
      IsValidDecides(candidate, maxDecimals);
      if IsValid(candidate, maxDecimals) {
        if n <= 0 { UnroundableStays(p, maxDecimals, decimals, rounding); }
        FirstLegalIsBest(p, maxDecimals, maxDecimals - decimals, rounding);
        return Ok(Some(candidate.Value()));
      }
      if n > 0 { NotLegalIsTooLong(p, maxDecimals, maxDecimals - decimals, rounding); }
    }
    var whole := Quantize(p, 0, rounding);
    UnroundableStays(p, maxDecimals, 0, rounding);
    if IsValid(whole, maxDecimals) {
      return Ok(Some(whole.Value()));
    }
    return Err;
  }

  /** The result is determined by the specification. */
  lemma NormalizesToIsUnique(rules: Option<AssetRules>, price: Option<real>, rounding: Rounding,
                             a: Result<Option<real>>, b: Result<Option<real>>)
    requires NormalizesTo(rules, price, rounding, a) && NormalizesTo(rules, price, rounding, b)
    ensures a == b
  {
  }

  /** A legal price normalises to itself, rounding either way. */
  lemma LegalIsFixed(p: real, maxDecimals: nat, rounding: Rounding)
    requires LegalPrice(p, maxDecimals)
    ensures !Unroundable(p, maxDecimals, rounding) && Best(p, p, maxDecimals, rounding)
  {
    RaisesExactlyWhen(p, maxDecimals);
  }

  /** `_protective_rounding`: toward the entry. A missing direction is treated as short. */
  function ProtectiveRounding(direction: Option<Side>, kind: Protection): Rounding {
    if direction == Some(Long) then if kind == TakeProfit then Floor else Ceiling
    else if kind == TakeProfit then Ceiling else Floor
  }

  /** The largest multiple of the size step at most the size; an error when that is zero. */
  ghost predicate SizesTo(rules: Option<AssetRules>, size: real, r: Result<real>) {
    if rules.None? then r == Ok(size)
    else
      var d := rules.value.SizeDecimals();
      if Scale(size, d) < 1.0 then r.Err?
      else
        && r.Ok? && 0.0 < r.value <= size
        && Scale(r.value, d) == Scale(r.value, d).Floor as real
        && Scale(size, d) < Scale(r.value, d) + 1.0
  }

  /** `_normalize_size`. */
  function NormalizeSize(rules: Option<AssetRules>, size: real): (r: Result<real>)
    ensures SizesTo(rules, size, r)
  {
    if rules.None? then Ok(size)
    else
      var d := rules.value.SizeDecimals();
      var normalized := Quantize(size, d, Floor).Value();
      var units := Quantize(size, d, Floor).units;
      ScaleUndoesUnscale(units as real, d);
      ScaleOrder(size, normalized, d);
      SamePositive(normalized, units, d);
      if normalized <= 0.0 then Err else Ok(normalized)
  }

  /** Rounding a size twice changes nothing. */
  lemma SizeIsFixed(rules: Option<AssetRules>, size: real, r: Result<real>, again: Result<real>)
    requires SizesTo(rules, size, r) && r.Ok? && SizesTo(rules, r.value, again)
    ensures again == r
  {
    if rules.Some? {
      var d := rules.value.SizeDecimals();
      var units := Scale(r.value, d).Floor;
      ScaleZero(d);
      ScaleOrder(0.0, r.value, d);
      if again.Ok? {
        ScaleOrder(r.value, again.value, d);
        ScaleOrder(again.value, r.value, d);
        assert Scale(again.value, d).Floor == units;
      }
    }
  }

  /** The parts of a decision packet that normalisation reads and writes. */
  datatype Packet = Packet(accepted: bool, direction: Option<Side>, size: real,
                           tpPrice: Option<real>, slPrice: Option<real>)

  ghost predicate PacketNormalizesTo(rules: Option<AssetRules>, packet: Packet, r: Result<Packet>) {
    if !packet.accepted then r == Ok(packet)
    else
      var tpRounding := ProtectiveRounding(packet.direction, TakeProfit);
      var slRounding := ProtectiveRounding(packet.direction, StopLoss);
      if r.Ok? then
        && r.value.accepted && r.value.direction == packet.direction
        && SizesTo(rules, packet.size, Ok(r.value.size))
        && NormalizesTo(rules, packet.tpPrice, tpRounding, Ok(r.value.tpPrice))
        && NormalizesTo(rules, packet.slPrice, slRounding, Ok(r.value.slPrice))
      else
        || SizesTo(rules, packet.size, Err)
        || NormalizesTo(rules, packet.tpPrice, tpRounding, Err)
        || NormalizesTo(rules, packet.slPrice, slRounding, Err)
  }

  /** `normalize_decision_packet`. */
  method NormalizePacket(rules: Option<AssetRules>, packet: Packet) returns (r: Result<Packet>)
    ensures PacketNormalizesTo(rules, packet, r)
  {
    if !packet.accepted {
      return Ok(packet);
    }
    var size := NormalizeSize(rules, packet.size);
    if size.Err? { return Err; }
    var tp := NormalizePrice(rules, packet.tpPrice, ProtectiveRounding(packet.direction, TakeProfit));
    if tp.Err? { return Err; }
    var sl := NormalizePrice(rules, packet.slPrice, ProtectiveRounding(packet.direction, StopLoss));
    if sl.Err? { return Err; }
    return Ok(packet.(size := size.value, tpPrice := tp.value, slPrice := sl.value));
  }

  lemma PriceIsFixed(rules: Option<AssetRules>, price: Option<real>, rounding: Rounding, r: Option<real>)
    requires NormalizesTo(rules, price, rounding, Ok(r))
    ensures NormalizesTo(rules, r, rounding, Ok(r))
  {
    if price.Some? && rules.Some? {
      LegalIsFixed(r.value, rules.value.MaxPriceDecimals(), rounding);
    }
  }

  /** Normalising a normalised packet changes nothing and never raises. */
  lemma NormalizingTwice(rules: Option<AssetRules>, packet: Packet, once: Packet, twice: Result<Packet>)
    requires PacketNormalizesTo(rules, packet, Ok(once)) && PacketNormalizesTo(rules, once, twice)
    ensures twice == Ok(once)
  {
    if packet.accepted {
      var tpRounding := ProtectiveRounding(packet.direction, TakeProfit);
      var slRounding := ProtectiveRounding(packet.direction, StopLoss);
      PriceIsFixed(rules, packet.tpPrice, tpRounding, once.tpPrice);
      PriceIsFixed(rules, packet.slPrice, slRounding, once.slPrice);
      var size := NormalizeSize(rules, once.size);
      SizeIsFixed(rules, packet.size, Ok(once.size), size);
      if twice.Ok? {
        SizeIsFixed(rules, packet.size, Ok(once.size), Ok(twice.value.size));
        NormalizesToIsUnique(rules, once.tpPrice, tpRounding, Ok(once.tpPrice), Ok(twice.value.tpPrice));
        NormalizesToIsUnique(rules, once.slPrice, slRounding, Ok(once.slPrice), Ok(twice.value.slPrice));
      } else {
        SizesToErr(rules, once.size);
      }
    }
  }

  lemma SizesToErr(rules: Option<AssetRules>, size: real)
    ensures SizesTo(rules, size, Err) <==> NormalizeSize(rules, size).Err?
  {
  }

  /** A protective order as `build_protective_intents` makes it. */
  datatype Intent = Intent(kind: Protection, direction: Option<Side>, size: real, triggerPrice: Option<real>)

  function ProtectiveIntents(packet: Packet): seq<Intent> {
    if !packet.accepted || packet.size <= 0.0 then []
    else
      (if packet.tpPrice.Some? then [Intent(TakeProfit, packet.direction, packet.size, packet.tpPrice)] else [])
      + (if packet.slPrice.Some? then [Intent(StopLoss, packet.direction, packet.size, packet.slPrice)] else [])
  }

  /** What the protective branch of `_execute_intent` sends to the exchange. */
  datatype Order = Order(isBuy: bool, size: real, triggerPrice: real)

  method SubmitProtective(rules: Option<AssetRules>, intent: Intent) returns (r: Result<Order>)
    ensures r.Ok? ==>
              && r.value.isBuy == (intent.direction != Some(Long))
              && SizesTo(rules, intent.size, Ok(r.value.size))
              && NormalizesTo(rules, intent.triggerPrice, ProtectiveRounding(intent.direction, intent.kind),
                              Ok(Some(r.value.triggerPrice)))
    ensures r.Err? ==>
              || SizesTo(rules, intent.size, Err)
              || NormalizesTo(rules, intent.triggerPrice, ProtectiveRounding(intent.direction, intent.kind), Err)
              || NormalizesTo(rules, intent.triggerPrice, ProtectiveRounding(intent.direction, intent.kind), Ok(None))
  {
    var size := NormalizeSize(rules, intent.size);
    if size.Err? { return Err; }
    var trigger := NormalizePrice(rules, intent.triggerPrice, ProtectiveRounding(intent.direction, intent.kind));
    if trigger.Err? || trigger.value.None? { return Err; }
    return Ok(Order(intent.direction != Some(Long), size.value, trigger.value.value));
  }

  /** The order submitted for a normalised packet carries exactly the size and price of the packet. */
  method SubmitFromPacket(rules: Option<AssetRules>, raw: Packet, packet: Packet, i: nat) returns (order: Order)
    requires PacketNormalizesTo(rules, raw, Ok(packet)) && raw.accepted
    requires i < |ProtectiveIntents(packet)|
    ensures order.size == packet.size
    ensures ProtectiveIntents(packet)[i].kind == TakeProfit ==> packet.tpPrice == Some(order.triggerPrice)
    ensures ProtectiveIntents(packet)[i].kind == StopLoss ==> packet.slPrice == Some(order.triggerPrice)
    ensures order.isBuy <==> packet.direction != Some(Long)
  {
    var intent := ProtectiveIntents(packet)[i];
    var rounding := ProtectiveRounding(packet.direction, intent.kind);
    PriceIsFixed(rules, if intent.kind == TakeProfit then raw.tpPrice else raw.slPrice, rounding, intent.triggerPrice);
    ghost var again := NormalizeSize(rules, packet.size);
    SizeIsFixed(rules, raw.size, Ok(packet.size), again);
    SizesToErr(rules, packet.size);
    var r := SubmitProtective(rules, intent);
    if r.Err? {
      if NormalizesTo(rules, intent.triggerPrice, rounding, Ok(None)) {
        NormalizesToIsUnique(rules, intent.triggerPrice, rounding, Ok(None), Ok(intent.triggerPrice));
      }
      assert false;
    }
    SizeIsFixed(rules, raw.size, Ok(packet.size), Ok(r.value.size));
    NormalizesToIsUnique(rules, intent.triggerPrice, rounding, Ok(intent.triggerPrice), Ok(Some(r.value.triggerPrice)));
    order := r.value;
  }

  /** Rounding toward a legal entry never crosses it: the bracket keeps its order, and each leg only
      moves toward the entry. */
  lemma BracketKeepsOrder(rules: AssetRules, packet: Packet, out: Packet, entry: real)
    requires PacketNormalizesTo(Some(rules), packet, Ok(out)) && packet.accepted
    requires packet.tpPrice.Some? && packet.slPrice.Some?
    requires LegalPrice(entry, rules.MaxPriceDecimals())
    ensures out.tpPrice.Some? && out.slPrice.Some?
    ensures packet.direction == Some(Long) && packet.slPrice.value <= entry <= packet.tpPrice.value ==>
              packet.slPrice.value <= out.slPrice.value <= entry <= out.tpPrice.value <= packet.tpPrice.value
    ensures packet.direction != Some(Long) && packet.tpPrice.value <= entry <= packet.slPrice.value ==>
              packet.tpPrice.value <= out.tpPrice.value <= entry <= out.slPrice.value <= packet.slPrice.value
  {
  }
}
