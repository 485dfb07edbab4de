/**
  The conversions between requested tokens, recorded units and credited tokens of a top-up (controller/topup.go), in
  decimal arithmetic: products are exact, a quotient is rounded half away from zero to 16 decimal places, and the
  integer part truncates toward zero.
*/
module TopUpAmount {

  /** A quotient is kept as a whole number of 1 / SCALE. */
  const SCALE: int := 10_000_000_000_000_000

  function Truncate(x: real): int {
    if x >= 0.0 then x.Floor else -((-x).Floor)
  }

  /** The integer part of `a` divided by `q`, for `a` at least 0. */
  function Quotient(a: nat, q: real): int
    requires q > 0.0
  {
    (a as real / q * SCALE as real + 0.5).Floor / SCALE
  }

  /** Tokens to units, as recorded with the order. */
  function Units(a: int, q: real): int
    requires q > 0.0
  {
    if a >= 0 then Quotient(a, q) else -Quotient(-a, q)
  }

  /** Units to tokens, as the paid order credits them. */
  function Credit(n: int, q: real): int {
    Truncate(n as real * q)
  }

  /** The smallest request in tokens that passes the check against a minimum of `min` units. */
  function MinTokens(min: int, q: real): int {
    Truncate(min as real * q)
  }

  /** The request in tokens is not refused as below the minimum. */
  predicate Passes(a: int, min: int, q: real) {
    a >= MinTokens(min, q)
  }

  // ----- what the rounded quotient is -----

  /** Half of the last decimal place of a quotient, in tokens. */
  function Half(q: real): real {
    q / (2 * SCALE) as real
  }

  lemma Rescale(n: int, y: real, a: real, q: real)
    requires q > 0.0 && y == a / q * SCALE as real + 0.5
    ensures n as real * SCALE as real <= y <==> n as real * q <= a + Half(q)
  {
    var s := SCALE as real;
    var left, right := n as real * s, n as real * q;
    assert a / q * q == a;
    assert y * q == a * s + q / 2.0 by {
      assert a / q * s * q == a / q * q * s;
    }
    assert right * s == left * q;
    assert (a + Half(q)) * s == a * s + q / 2.0;
    Scaled(left, y, q);
    Scaled(right, a + Half(q), s);
  }

  lemma Scaled(x: real, y: real, k: real)
    requires k > 0.0
    ensures x <= y <==> x * k <= y * k
  {
    if x > y { assert (x - y) * k > 0.0; } else { assert (y - x) * k >= 0.0; }
  }

  /** The quotient is the number of whole units in the request, plus half of the last decimal place of a unit. */
  lemma QuotientMeaning(a: nat, q: real)
    requires q > 0.0
    ensures var n := Quotient(a, q);
      n >= 0 && n as real * q <= a as real + Half(q) < (n + 1) as real * q
  {
    var y := a as real / q * SCALE as real + 0.5;
    var n := Quotient(a, q);
    assert a as real / q >= 0.0;
    assert y >= 0.0;
    assert n * SCALE <= y.Floor < (n + 1) * SCALE;
    Rescale(n, y, a as real, q);
    Rescale(n + 1, y, a as real, q);
    assert (n * SCALE) as real == n as real * SCALE as real;
    assert ((n + 1) * SCALE) as real == (n + 1) as real * SCALE as real;
  }

  // ----- what a paid request credits -----

  lemma Grows(m: int, n: int, q: real)
    requires q > 0.0
    ensures m < n <==> m as real * q < n as real * q
  {
    if m < n { assert (n as real - m as real) * q > 0.0; } else { assert (m as real - n as real) * q >= 0.0; }
  }

  lemma NotNegative(n: int, q: real)
    requires n >= 0 && q > 0.0
    ensures n as real * q >= 0.0
  {
  }

  lemma OneMore(n: int, q: real)
    ensures (n + 1) as real * q == n as real * q + q
  {
  }

  lemma GrowsInt(m: int, n: int, d: int)
    requires d > 0
    ensures m < n <==> m * d < n * d
  {
    if m < n { assert (n - m) * d > 0; } else { assert (m - n) * d >= 0; }
  }

  lemma HalfStep(q: real)
    requires q > 0.0
    ensures 0.0 < Half(q) < q && (q < (2 * SCALE) as real ==> Half(q) < 1.0)
  {
  }

  lemma DivisionIs(a: int, n: int, d: int)
    requires d > 0 && n * d <= a < (n + 1) * d
    ensures a / d == n && a % d == a - n * d
  {
    var k := a / d;
    assert a == k * d + a % d;
    assert (k + 1) * d == k * d + d;
    GrowsInt(k, n + 1, d);
    GrowsInt(n, k + 1, d);
  }

  /** Whole tokens per unit: the rounding never shows. */
  lemma WholeQuotient(a: nat, perUnit: nat)
    requires 1 <= perUnit < 2 * SCALE
    ensures Quotient(a, perUnit as real) == a / perUnit
  {
    var q := perUnit as real;
    QuotientMeaning(a, q);
    HalfStep(q);
    var n := Quotient(a, q);
    assert n as real * q == (n * perUnit) as real;
    assert (n + 1) as real * q == ((n + 1) * perUnit) as real;
    DivisionIs(a, n, perUnit);
  }

  lemma WholeProduct(n: nat, perUnit: nat)
    ensures Truncate(n as real * perUnit as real) == n * perUnit
  {
    assert n as real * perUnit as real == (n * perUnit) as real;
  }

  lemma MinimumKept(a: int, min: nat, d: nat)
    requires d > 0 && min * d <= a
    ensures 0 <= a && min <= a / d
  {
    assert min * d >= 0;
    assert a == a / d * d + a % d;
    assert (a / d + 1) * d == a / d * d + d;
    GrowsInt(min, a / d + 1, d);
  }

  lemma MultipleBelow(a: nat, d: nat)
    requires d > 0
    ensures var c := a / d * d; a - d < c <= a && c % d == 0 && (c == a <==> a % d == 0)
  {
    var n := a / d;
    assert a == n * d + a % d;
    assert (n + 1) * d == n * d + d;
    DivisionIs(n * d, n, d);
  }

  /** Whole tokens per unit: the order records the whole units in the request, at least the minimum, and credits the
      largest multiple of the unit that the request contains. Nothing is lost exactly when the request is itself a
      multiple. */
  lemma WholeUnits(a: int, min: nat, perUnit: nat)
    requires 1 <= perUnit < 2 * SCALE && Passes(a, min, perUnit as real)
    ensures var q := perUnit as real; var n := Units(a, q); var c := Credit(n, q);
      && a >= 0 && n == a / perUnit && n >= min
      && c == n * perUnit && a - perUnit < c <= a && c % perUnit == 0
      && (c == a <==> a % perUnit == 0)
  {
    WholeProduct(min, perUnit);
    MinimumKept(a, min, perUnit);
    WholeCredit(a, perUnit);
    MultipleBelow(a, perUnit);
  }

  lemma WholeCredit(a: nat, perUnit: nat)
    requires 1 <= perUnit < 2 * SCALE
    ensures var q := perUnit as real; Units(a, q) == a / perUnit && Credit(Units(a, q), q) == a / perUnit * perUnit
  {
    WholeQuotient(a, perUnit);
    WholeProduct(a / perUnit, perUnit);
  }

  /** Any positive number of tokens per unit: never more than requested, and short by less than one unit and one token.
      */
  lemma CreditBounds(a: nat, q: real)
    requires 0.0 < q < (2 * SCALE) as real
    ensures var c := Credit(Units(a, q), q); a as real - q - 1.0 < c as real && c <= a
  {
    QuotientMeaning(a, q);
    HalfStep(q);
    var n := Quotient(a, q);
    ProductNear(n, a, q, Half(q));
    CreditNear(n, a, q);
  }

  lemma CreditNear(n: nat, a: nat, q: real)
    requires var x := n as real * q; 0.0 <= x && a as real - q < x < a as real + 1.0
    ensures a as real - q - 1.0 < Credit(n, q) as real && Credit(n, q) <= a
  {
    FloorBetween(n as real * q, a, q);
  }

  lemma ProductNear(n: nat, a: nat, q: real, half: real)
    requires 0.0 < half < q && half < 1.0 && n as real * q <= a as real + half < (n + 1) as real * q
    ensures var x := n as real * q; 0.0 <= x && a as real - q < x < a as real + 1.0
  {
    OneMore(n, q);
    NotNegative(n, q);
  }

  lemma FloorBetween(x: real, a: int, q: real)
    requires a as real - q < x < a as real + 1.0
    ensures a as real - q - 1.0 < x.Floor as real && x.Floor <= a
  {
    assert x.Floor as real <= x < x.Floor as real + 1.0;
  }

  /** The part of a token cut off the minimum. */
  function CutOff(min: int, q: real): real {
    min as real * q - (min as real * q).Floor as real
  }

  /** Whether that part is lost in the rounding of the quotient. */
  predicate CutOffHidden(min: int, q: real) {
    CutOff(min, q) <= Half(q)
  }

  lemma EnoughForPositive(a: int, min: int, q: real)
    requires q > 0.0 && Passes(a, min, q) && min > 0 && CutOffHidden(min, q)
    ensures Units(a, q) >= min
  {
    CoversMinimum(a, min, q);
    QuotientMeaning(a, q);
    AtLeast(min, a as real + Half(q), Quotient(a, q), q);
  }

  lemma CoversMinimum(a: int, min: int, q: real)
    requires q > 0.0 && Passes(a, min, q) && min > 0 && CutOffHidden(min, q)
    ensures a >= 0 && min as real * q <= a as real + Half(q)
  {
    NotNegative(min, q);
  }

  lemma AtLeast(min: int, b: real, n: int, q: real)
    requires q > 0.0 && min as real * q <= b < (n + 1) as real * q
    ensures min <= n
  {
    Grows(min, n + 1, q);
  }

  lemma AtMost(n: int, b: real, m: int, q: real)
    requires q > 0.0 && n as real * q <= b + Half(q) && b <= m as real * q
    ensures n <= m
  {
    HalfStep(q);
    OneMore(m, q);
    Grows(n, m + 1, q);
  }

  lemma MinusMinimum(min: int, q: real)
    requires min <= 0 && q > 0.0
    ensures -MinTokens(min, q) == ((-min) as real * q).Floor
  {
    NotNegative(-min, q);
    assert min as real * q == -((-min) as real * q);
  }

  lemma EnoughForNegative(a: int, min: int, q: real)
    requires q > 0.0 && Passes(a, min, q) && min <= 0
    ensures Units(a, q) >= min
  {
    if a >= 0 {
      QuotientMeaning(a, q);
    } else {
      NotNegative(-min, q);
      MinusMinimum(min, q);
      QuotientMeaning(-a, q);
      AtMost(Quotient(-a, q), (-a) as real, -min, q);
    }
  }

  /** Otherwise the smallest request that passes is recorded as too little. */
  lemma ShortAtMinimum(min: int, q: real)
    requires q > 0.0 && min > 0 && !CutOffHidden(min, q)
    ensures Units(MinTokens(min, q), q) < min
  {
    var m := min as real * q;
    NotNegative(min, q);
    var a := MinTokens(min, q);
    assert a == m.Floor >= 0;
    QuotientMeaning(a, q);
    var n := Quotient(a, q);
    assert n as real * q < m;
    Grows(n, min, q);
  }

  /** Every request that passes is recorded as at least the minimum exactly when the fraction of a token cut off the
      minimum is too small to show in the quotient: always for whole tokens per unit. */
  lemma MinimumHonoured(min: int, q: real)
    requires q > 0.0
    ensures (forall a :: Passes(a, min, q) ==> Units(a, q) >= min) <==> min <= 0 || CutOffHidden(min, q)
  {
    if min <= 0 {
      forall a | Passes(a, min, q) ensures Units(a, q) >= min { EnoughForNegative(a, min, q); }
    } else if CutOffHidden(min, q) {
      forall a | Passes(a, min, q) ensures Units(a, q) >= min { EnoughForPositive(a, min, q); }
    } else {
      ShortAtMinimum(min, q);
      assert Passes(MinTokens(min, q), min, q);
    }
  }

  /** With two and a half tokens per unit a request for 2 tokens passes a minimum of one unit and is recorded as none.
      */
  lemma FractionalUnitMissesMinimum()
    ensures Passes(2, 1, 2.5) && Units(2, 2.5) == 0
  {
    QuotientMeaning(2, 2.5);
    HalfStep(2.5);
    Grows(Units(2, 2.5), 1, 2.5);
  }
}
