/** Which Hyperliquid prices are legal, and the scaled whole numbers they correspond to. */
module PriceRules {
  import opened Decimals

  /** `digits` significant figures, `decimals` decimals: v == m / 10^e. */
  ghost predicate Written(v: real, m: nat, e: nat) {
    Scale(v, e) == m as real
  }

  /** A legal price is positive, and either whole or written with at most five significant figures
      and at most `maxDecimals` decimals. */
  ghost predicate LegalPrice(v: real, maxDecimals: nat) {
    v > 0.0 &&
    (v == v.Floor as real || exists m: nat, e: nat :: Written(v, m, e) && 0 < m < 100_000 && e <= maxDecimals)
  }

  /** A decimal number: units / 10^decimals. */
  datatype Dec = Dec(units: int, decimals: nat) {
    function Value(): real { Unscale(units as real, decimals) }
  }

  /** `_significant_figures`. */
  function SignificantFigures(units: int): nat {
    var magnitude := if units < 0 then -units else units;
    if magnitude == 0 then 1 else DigitCount(StripZeros(magnitude))
  }

  /** Decimals left after normalising. */
  function DecimalPlaces(d: Dec): nat
    requires d.units > 0
  {
    var z := TrailingZeros(d.units);
    if d.decimals > z then d.decimals - z else 0
  }

  /** `_is_valid_hyperliquid_price`. */
  predicate IsValid(d: Dec, maxDecimals: nat) {
    d.units > 0 &&
    (d.units % Pow10(d.decimals) == 0
     || (DecimalPlaces(d) <= maxDecimals && SignificantFigures(d.units) <= 5))
  }

  ghost predicate Factors(n: int, m: nat, k: nat) {
    n == m * Pow10(k)
  }

  /** The whole numbers n for which n / 10^maxDecimals is a legal price. */
  ghost predicate LegalUnits(n: int, maxDecimals: nat) {
    n > 0 &&
    (n % Pow10(maxDecimals) == 0 || exists m: nat, k: nat :: Factors(n, m, k) && 0 < m < 100_000 && k <= maxDecimals)
  }

  lemma Rescale(v: real, m: int, e: nat, k: nat)
    ensures Scale(v, e) == m as real <==> Scale(v, e + k) == (m * Pow10(k)) as real
  {
    ScaleAdd(v, e, k);
    ScaleWhole(m, k);
    ScaleOrder(Scale(v, e), m as real, k);
  }

  lemma WholeMultiple(v: real, n: int, d: nat)
    requires Scale(v, d) == n as real
    ensures v == v.Floor as real <==> n % Pow10(d) == 0
  {
    var p := Pow10(d);
    FloorOfScaled(v, d);
    ScaleWhole(v.Floor, d);
    ScaleOrder(v, v.Floor as real, d);
    assert n / p == v.Floor;
    assert n % p == n - (n / p) * p;
  }

  lemma SamePositive(v: real, n: int, d: nat)
    requires Scale(v, d) == n as real
    ensures v > 0.0 <==> n > 0
  {
    ScaleZero(d);
    ScaleOrder(0.0, v, d);
  }

  /** Scaling by 10^maxDecimals turns legal prices into legal units and back. */
  lemma LegalScales(v: real, n: int, maxDecimals: nat)
    requires Scale(v, maxDecimals) == n as real
    ensures LegalPrice(v, maxDecimals) <==> LegalUnits(n, maxDecimals)
  {
    WholeMultiple(v, n, maxDecimals);
    SamePositive(v, n, maxDecimals);
    if LegalPrice(v, maxDecimals) && v != v.Floor as real {
      var m: nat, e: nat :| Written(v, m, e) && 0 < m < 100_000 && e <= maxDecimals;
      Rescale(v, m, e, maxDecimals - e);
      assert Factors(n, m, maxDecimals - e);
    }
    if LegalUnits(n, maxDecimals) && n % Pow10(maxDecimals) != 0 {
      var m: nat, k: nat :| Factors(n, m, k) && 0 < m < 100_000 && k <= maxDecimals;
      Rescale(v, m, maxDecimals - k, k);
      assert Written(v, m, maxDecimals - k);
    }
  }

  /** Every legal price is a whole number of units. */
  lemma LegalIsWholeUnits(v: real, maxDecimals: nat) returns (n: int)
    requires LegalPrice(v, maxDecimals)
    ensures Scale(v, maxDecimals) == n as real && LegalUnits(n, maxDecimals)
  {
    if v == v.Floor as real {
      n := v.Floor * Pow10(maxDecimals);
      ScaleWhole(v.Floor, maxDecimals);
    } else {
      var m: nat, e: nat :| Written(v, m, e) && 0 < m < 100_000 && e <= maxDecimals;
      n := m * Pow10(maxDecimals - e);
      Rescale(v, m, e, maxDecimals - e);
    }
    LegalScales(v, n, maxDecimals);
  }

  /** The digit-counting test decides legality, for every decimal number. */
  lemma IsValidDecides(d: Dec, maxDecimals: nat)
    ensures IsValid(d, maxDecimals) <==> LegalPrice(d.Value(), maxDecimals)
  {
    var v := d.Value();
    ScaleUndoesUnscale(d.units as real, d.decimals);
    WholeMultiple(v, d.units, d.decimals);
    SamePositive(v, d.units, d.decimals);
    if d.units > 0 && d.units % Pow10(d.decimals) != 0 {
      var s, z := StripZeros(d.units), TrailingZeros(d.units);
      StripIsDivision(d.units);
      DigitCountBound(s, 5);
      assert Pow10(5) == 100_000;
      TrailingZerosOfPart(d);
      if IsValid(d, maxDecimals) {
        Rescale(v, s, d.decimals - z, z);
        assert Written(v, s, d.decimals - z);
      }
      if LegalPrice(v, maxDecimals) {
        var m: nat, e: nat :| Written(v, m, e) && 0 < m < 100_000 && e <= maxDecimals;
        LeastForm(v, d, m, e);
      }
    }
  }

  lemma TrailingZerosOfPart(d: Dec)
    requires d.units > 0 && d.units % Pow10(d.decimals) != 0
    ensures TrailingZeros(d.units) < d.decimals
  {
    var s, z := StripZeros(d.units), TrailingZeros(d.units);
    StripIsDivision(d.units);
    if z >= d.decimals {
      Pow10Add(z - d.decimals, d.decimals);
      MulAssoc(s, Pow10(z - d.decimals), Pow10(d.decimals));
      QuotientUnique(d.units, s * Pow10(z - d.decimals), Pow10(d.decimals));
      assert false;
    }
  }

  lemma LeastForm(v: real, d: Dec, m: nat, e: nat)
    requires d.units > 0 && v == d.Value() && Written(v, m, e)
    requires TrailingZeros(d.units) < d.decimals
    ensures d.decimals - TrailingZeros(d.units) <= e && StripZeros(d.units) <= m
  {
    var s, z := StripZeros(d.units), TrailingZeros(d.units);
    var places := d.decimals - z;
    ScaleUndoesUnscale(d.units as real, d.decimals);
    StripIsDivision(d.units);
    Rescale(v, s, places, z);
    Rescale(v, s, places, e);
    Rescale(v, m, e, places);
    assert e + places == places + e;
    assert s * Pow10(e) == m * Pow10(places);
    StripIsLeast(s, e, m, places);
  }

  /** The state of the search after the steps 10^0 .. 10^(j-1) failed: n is too long for them. */
  ghost predicate TooLong(n: int, j: nat) {
    j == 0 || n >= 100_000 * Pow10(j - 1)
  }

  /** From a too-long number on, every legal number is a multiple of the current step. */
  lemma LegalIsMultiple(n: int, maxDecimals: nat, j: nat) returns (q: int)
    requires LegalUnits(n, maxDecimals) && TooLong(n, j) && j <= maxDecimals
    ensures n == q * Pow10(j)
  {
    if n % Pow10(maxDecimals) == 0 {
      var whole := n / Pow10(maxDecimals);
      assert n == whole * Pow10(maxDecimals);
      q := whole * Pow10(maxDecimals - j);
      Pow10Add(maxDecimals - j, j);
      MulAssoc(whole, Pow10(maxDecimals - j), Pow10(j));
    } else {
      var m: nat, k: nat :| Factors(n, m, k) && 0 < m < 100_000 && k <= maxDecimals;
      if k < j {
        Pow10Monotone(k, j - 1);
        ShorterProduct(m, Pow10(k), Pow10(j - 1));
        assert false;
        q := 0;
      } else {
        q := m * Pow10(k - j);
        Pow10Add(k - j, j);
        MulAssoc(m, Pow10(k - j), Pow10(j));
      }
    }
  }

  lemma ShorterProduct(m: nat, a: nat, b: nat)
    requires m < 100_000 && 1 <= a <= b
    ensures m * a < 100_000 * b
  {
    assert m * a <= m * b;
    assert m * b < 100_000 * b;
  }

  lemma MulMonotone(a: int, b: int, p: nat)
    ensures a <= b ==> a * p <= b * p
  {
  }

  lemma FloorCandidate(n: int, j: nat)
    requires n > 0 && TooLong(n, j)
    ensures n / Pow10(j) >= 1
    ensures j > 0 ==> n / Pow10(j) >= 10_000
  {
    if j > 0 {
      assert n >= 10_000 * Pow10(j);
      MultipleBelow(10_000, n, Pow10(j));
    }
  }

  /** Rounding down to the first legal step gives the greatest legal number. */
  lemma FloorIsGreatest(n: int, j: nat, maxDecimals: nat, other: int)
    requires n > 0 && TooLong(n, j) && j <= maxDecimals
    requires LegalUnits(other, maxDecimals) && other <= n
    ensures other <= (n / Pow10(j)) * Pow10(j)
  {
    var p := Pow10(j);
    FloorCandidate(n, j);
    if TooLong(other, j) {
      var q := LegalIsMultiple(other, maxDecimals, j);
      MultipleBelow(q, n, p);
      MulMonotone(q, n / p, p);
    } else {
      assert other < 10_000 * p;
      MulMonotone(10_000, n / p, p);
    }
  }

  /** A step at which rounding down is not legal leaves the number too long for the next. */
  lemma FloorFails(n: int, j: nat, maxDecimals: nat)
    requires n > 0 && TooLong(n, j) && j <= maxDecimals
    requires !LegalUnits((n / Pow10(j)) * Pow10(j), maxDecimals)
    ensures j < maxDecimals && TooLong(n, j + 1)
  {
    var m, p := n / Pow10(j), Pow10(j);
    FloorCandidate(n, j);
    MulMonotone(1, m, p);
    QuotientUnique(m * p, m, p);
    if m < 100_000 { assert Factors(m * p, m, j); }
    DivisionBounds(n, p);
    MulMonotone(100_000, m, p);
  }

  /** Rounding up to the first legal step gives the least legal number. */
  lemma CeilIsLeast(n: int, j: nat, maxDecimals: nat, other: int)
    requires n > 0 && TooLong(n, j) && j <= maxDecimals
    requires LegalUnits(other, maxDecimals) && n <= other
    ensures CeilDiv(n, Pow10(j)) * Pow10(j) <= other
  {
    var p := Pow10(j);
    var q := LegalIsMultiple(other, maxDecimals, j);
    MultipleBelow(q, n, p);
    MulMonotone(CeilDiv(n, p), q, p);
  }

  lemma CeilFails(n: int, j: nat, maxDecimals: nat)
    requires n > 0 && TooLong(n, j) && j <= maxDecimals
    requires !LegalUnits(CeilDiv(n, Pow10(j)) * Pow10(j), maxDecimals)
    ensures j < maxDecimals && TooLong(n, j + 1)
  {
    var p := Pow10(j);
    var m := CeilDiv(n, p);
    DivisionBounds(n, p);
    MulMonotone(m, 0, p);
    QuotientUnique(m * p, m, p);
    assert m > 0 && j < maxDecimals;
    if m < 100_000 { assert Factors(m * p, m, j); }
    assert 100_000 * p == 10_000 * Pow10(j + 1);
    if m == 100_000 { assert Factors(m * p, 10_000, j + 1); }
    MulMonotone(100_000, m - 1, p);
    assert (m - 1) * p == m * p - p;
  }
}
