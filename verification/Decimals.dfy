/** Powers of ten, decimal digits, and rounding to a power-of-ten step. */
module Decimals {

  function Pow10(n: nat): (r: nat)
    ensures r >= 1
  {
    if n == 0 then 1 else 10 * Pow10(n - 1)
  }

  lemma {:induction false} Pow10Add(a: nat, b: nat)
    ensures Pow10(a + b) == Pow10(a) * Pow10(b)
    decreases a
  {
    if a > 0 {
      Pow10Add(a - 1, b);
      MulAssoc(10, Pow10(a - 1), Pow10(b));
    }
  }

  lemma MulAssoc(a: int, b: int, c: int)
    ensures (a * b) * c == a * (b * c)
  {
  }

  lemma {:induction false} Pow10Monotone(a: nat, b: nat)
    requires a <= b
    ensures Pow10(a) <= Pow10(b)
  {
    if a < b { Pow10Monotone(a, b - 1); }
  }

  /** Digits of a positive whole number. */
  function DigitCount(n: nat): nat {
    if n < 10 then 1 else 1 + DigitCount(n / 10)
  }

  lemma {:induction false} DigitCountBound(n: nat, d: nat)
    requires d >= 1
    ensures DigitCount(n) <= d <==> n < Pow10(d)
    decreases d
  {
    if n >= 10 {
      if d == 1 {
        assert Pow10(1) == 10;
      } else {
        DigitCountBound(n / 10, d - 1);
      }
    } else {
      Pow10Monotone(1, d);
    }
  }

  /** Drops the trailing zeros of a positive number, as `Decimal.normalize` does. */
  function StripZeros(n: nat): (m: nat)
    requires n > 0
    ensures m > 0 && m % 10 != 0 && m <= n
  {
    if n % 10 == 0 then StripZeros(n / 10) else n
  }

  function TrailingZeros(n: nat): nat
    requires n > 0
  {
    if n % 10 == 0 then 1 + TrailingZeros(n / 10) else 0
  }

  lemma {:induction false} StripIsDivision(n: nat)
    requires n > 0
    ensures n == StripZeros(n) * Pow10(TrailingZeros(n))
  {
    if n % 10 == 0 {
      StripIsDivision(n / 10);
      var s, p := StripZeros(n / 10), Pow10(TrailingZeros(n / 10));
      assert n == 10 * (s * p) == s * (10 * p);
    }
  }

  lemma TenOut(m: nat, b: nat)
    requires b > 0
    ensures m * Pow10(b) == 10 * (m * Pow10(b - 1))
  {
  }

  lemma TimesAtLeastOne(m: nat, x: nat)
    requires x >= 1
    ensures m * x >= m && m * 1 == m
  {
  }

  lemma TenDivides(m: nat, b: nat)
    requires b > 0
    ensures (m * Pow10(b)) % 10 == 0
  {
    TenOut(m, b);
  }

  /** Two ways to write a number with a power of ten: the one without trailing zeros carries the
      larger power and the smaller coefficient. */
  lemma {:induction false} StripIsLeast(s: nat, a: nat, m: nat, b: nat)
    requires s % 10 != 0 && s * Pow10(a) == m * Pow10(b)
    ensures b <= a && s <= m
    decreases a
  {
    if b > 0 {
      if a == 0 {
        TenDivides(m, b);
        assert false;
      } else {
        TenOut(s, a);
        TenOut(m, b);
        StripIsLeast(s, a - 1, m, b - 1);
      }
    } else {
      TimesAtLeastOne(s, Pow10(a));
      TimesAtLeastOne(m, Pow10(b));
    }
  }

  function FloorDiv(n: int, d: nat): int
    requires d > 0
  {
    n / d
  }

  function CeilDiv(n: int, d: nat): int
    requires d > 0
  {
    -((-n) / d)
  }

  function Ceil(x: real): int {
    -((-x).Floor)
  }

  lemma DivisionBounds(n: int, d: nat)
    requires d > 0
    ensures FloorDiv(n, d) * d <= n < FloorDiv(n, d) * d + d
    ensures CeilDiv(n, d) * d - d < n <= CeilDiv(n, d) * d
  {
    var q := (-n) / d;
    assert q * d <= -n < q * d + d;
    assert (-q) * d == -(q * d);
  }

  /** A quotient is pinned by its bounds. */
  lemma QuotientUnique(n: int, q: int, d: nat)
    requires d > 0
    ensures q * d <= n < q * d + d ==> n / d == q
    ensures q * d - d < n <= q * d ==> CeilDiv(n, d) == q
  {
    DivisionBounds(n, d);
    if q * d <= n < q * d + d {
      SameMultiple(n / d, q, d);
    }
    if q * d - d < n <= q * d {
      SameMultiple(CeilDiv(n, d), q, d);
    }
  }

  lemma SameMultiple(a: int, b: int, d: nat)
    requires d > 0 && a * d - d < b * d < a * d + d
    ensures a == b
  {
    NextMultiple(a, b, d);
    NextMultiple(b, a, d);
  }

  lemma NextMultiple(a: int, b: int, d: nat)
    ensures a < b ==> a * d + d <= b * d
  {
    assert a < b ==> (a + 1) * d <= b * d;
  }

  /** x * 10^k and x / 10^k, one power at a time. */
  function Scale(x: real, k: nat): real {
    if k == 0 then x else 10.0 * Scale(x, k - 1)
  }

  function Unscale(x: real, k: nat): real {
    if k == 0 then x else Unscale(x, k - 1) / 10.0
  }

  lemma {:induction false} ScaleUndoesUnscale(x: real, k: nat)
    ensures Scale(Unscale(x, k), k) == x
  {
    if k > 0 {
      ScaleLinear(Unscale(x, k - 1) / 10.0, k - 1);
      ScaleUndoesUnscale(x, k - 1);
    }
  }

  lemma {:induction false} ScaleLinear(x: real, k: nat)
    ensures Scale(10.0 * x, k) == 10.0 * Scale(x, k)
  {
    if k > 0 { ScaleLinear(x, k - 1); }
  }

  lemma {:induction false} ScaleAdd(x: real, a: nat, b: nat)
    ensures Scale(x, a + b) == Scale(Scale(x, a), b)
  {
    if b > 0 { ScaleAdd(x, a, b - 1); }
  }

  lemma {:induction false} ScaleOrder(x: real, y: real, k: nat)
    ensures Scale(x, k) < Scale(y, k) <==> x < y
    ensures Scale(x, k) == Scale(y, k) <==> x == y
  {
    if k > 0 { ScaleOrder(x, y, k - 1); }
  }

  lemma {:induction false} ScaleZero(k: nat)
    ensures Scale(0.0, k) == 0.0
  {
    if k > 0 { ScaleZero(k - 1); }
  }

  lemma {:induction false} ScaleWhole(m: int, k: nat)
    ensures Scale(m as real, k) == (m * Pow10(k)) as real
  {
    if k > 0 {
      ScaleWhole(m, k - 1);
      assert m * Pow10(k) == 10 * (m * Pow10(k - 1));
    }
  }

  lemma ScaleIsProduct(x: real, k: nat)
    ensures Scale(x, k) == x * Pow10(k) as real
  {
    if k > 0 {
      ScaleIsProduct(x, k - 1);
      assert Pow10(k) as real == 10.0 * Pow10(k - 1) as real;
    }
  }

  lemma DivDiv(n: int, d: nat)
    requires d > 0
    ensures (n / 10) / d == n / (10 * d)
  {
    var q := (n / 10) / d;
    DivisionBounds(n / 10, d);
    assert q * (10 * d) == 10 * (q * d);
    QuotientUnique(n, q, 10 * d);
  }

  /** Rounding a scaled value and then dividing is rounding the value. */
  lemma {:induction false} FloorOfScaled(x: real, k: nat)
    ensures Scale(x, k).Floor / Pow10(k) == x.Floor
  {
    if k > 0 {
      FloorOfScaled(x, k - 1);
      DivDiv(Scale(x, k).Floor, Pow10(k - 1));
    }
  }

  lemma {:induction false} ScaleNegates(x: real, k: nat)
    ensures Scale(-x, k) == -Scale(x, k)
  {
    if k > 0 { ScaleNegates(x, k - 1); }
  }

  lemma CeilOfScaled(x: real, k: nat)
    ensures CeilDiv(Ceil(Scale(x, k)), Pow10(k)) == Ceil(x)
  {
    FloorOfScaled(-x, k);
    ScaleNegates(x, k);
  }

  /** A multiple of d at most n is at most n rounded down to d, and dually. */
  lemma MultipleBelow(q: int, n: int, d: nat)
    requires d > 0
    ensures q * d <= n ==> q <= n / d
    ensures n <= q * d ==> CeilDiv(n, d) <= q
  {
    DivisionBounds(n, d);
    NextMultiple(n / d, q, d);
    NextMultiple(q, CeilDiv(n, d), d);
  }
}
