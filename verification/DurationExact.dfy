/** Exactness of a shifted number times a unit: precisely when the arithmetic of the
    duration parser gives the rational product, rounded down. */
module DurationExact {
  import opened Prelude
  import opened Decimal
  import opened DurationNumber

  function Quot(x: nat, d: nat): nat {
    if d == 0 then 0 else x / d
  }

  /** Equal fractions have equal quotients. */
  lemma {:induction false} CrossQuotient(x: nat, c: nat, y: nat, d: nat)
    requires 0 < c && 0 < d && x * d == y * c
    ensures x / c == y / d
  {
    var q, r := x / c, x % c;
    assert x == q * c + r;
    var z := y - q * d;
    assert x * d == (q * d) * c + r * d;
    assert y * c == (q * d) * c + z * c;
    assert z * c == r * d;
    Sandwich(z, c, r, d);
    Quotient(y, d, q, z);
  }

  lemma {:induction false} Sandwich(z: int, c: nat, r: nat, d: nat)
    requires 0 < c && 0 < d && r < c && z * c == r * d
    ensures 0 <= z < d
  {
    assert r * d < c * d;
    assert z < 0 ==> z * c < 0;
    if z >= d {
      Product(d, c, z, c);
    }
  }

  lemma {:induction false} ShiftedExact(n: Number, exp: int, m: Number, unit: nat)
    requires IsShifted(n, exp, m) && NumberOk(m) && unit <= NANOS_PER_WEEK
    ensures MultiplyToNanos(m, unit) == Quot(Scaled(n) * Pow10(Pos(exp)) * unit, Pow10(n.fracDigits) * Pow10(Neg(exp)))
  {
    MultiplyExact(m, unit);
    hide MultiplyToNanos;
    hide Scaled;
    hide Pow10;
    hide Quot;
    Positive(Pow10(n.fracDigits), Pow10(Neg(exp)));
    RationalStep(Scaled(m), Pow10(n.fracDigits) * Pow10(Neg(exp)), Scaled(n), Pow10(m.fracDigits), Pow10(Pos(exp)), unit);
  }

  lemma {:induction false} RationalStep(a: nat, d: nat, b: nat, c: nat, p: nat, u: nat)
    requires 0 < c && 0 < d && a * d == b * (c * p)
    ensures a * u / c == Quot(b * p * u, d)
  {
    Rescale(a, d, b, c, p, u);
    CrossQuotient(a * u, c, b * p * u, d);
  }

  lemma {:induction false} Positive(a: nat, b: nat)
    requires 0 < a && 0 < b
    ensures 0 < a * b
  {
  }

  lemma {:induction false} Rescale(a: nat, d: nat, b: nat, c: nat, p: nat, u: nat)
    requires a * d == b * (c * p)
    ensures (a * u) * d == (b * p * u) * c
  {
    assert (a * u) * d == (a * d) * u;
    assert (b * p * u) * c == (b * (c * p)) * u;
  }

  /** The number times ten to the power `exp` times the unit, rounded down. */
  function NumExact(n: Number, exp: int, unit: nat): nat {
    Quot(Scaled(n) * Pow10(Pos(exp)) * unit, Pow10(n.fracDigits) * Pow10(Neg(exp)))
  }

  // ---------------------------------------------------------------------
  // Fractions that do not show
  // ---------------------------------------------------------------------

  lemma {:induction false} FractionVanishes(w: nat, x: nat, p: nat, d: nat)
    requires x < p && 0 < d
    ensures 0 < p * d && (w * p + x) / (p * d) == w / d
  {
    var q, r := w / d, w % d;
    assert w == q * d + r;
    Positive(p, d);
    assert w * p + x == q * (p * d) + (r * p + x) by {
      assert (q * d + r) * p == q * (p * d) + r * p;
    }
    Product(r + 1, p, d, p);
    assert (r + 1) * p == r * p + p && d * p == p * d;
    Quotient(w * p + x, p * d, q, r * p + x);
  }

  lemma {:induction false} Small(f: nat, p: nat, u: nat)
    requires f <= U64_MAX && p <= Pow10(20) && u <= NANOS_PER_WEEK
    ensures f * p * u < Pow10(60)
  {
    PowTwenty();
    PowSixty();
    hide Pow10;
    Product(f, p, U64_MAX, 100_000_000_000_000_000_000);
    Product(f * p, u, U64_MAX * 100_000_000_000_000_000_000, NANOS_PER_WEEK);
  }

  lemma {:induction false} PowSixty()
    ensures Pow10(60) == 1_000_000_000_000_000_000_000_000_000_000_000_000_000_000_000_000_000_000_000_000
  {
    PowTwenty();
    PowAdd(20, 40);
    PowAdd(20, 20);
  }

  /** The exact value does not depend on how many digits beyond sixty a small fraction
      is said to have. */
  lemma {:induction false} MoreDigits(i: nat, f: nat, exp: int, u: nat, j: nat, k: nat)
    requires f <= U64_MAX && -20 <= exp <= 20 && u <= NANOS_PER_WEEK && 60 <= j && 60 <= k
    ensures NumExact(Number(i, j, f), exp, u) == NumExact(Number(i, k, f), exp, u)
  {
    ManyVanish(i, f, exp, u, j);
    ManyVanish(i, f, exp, u, k);
  }

  lemma {:induction false} ManyVanish(i: nat, f: nat, exp: int, u: nat, k: nat)
    requires f <= U64_MAX && -20 <= exp <= 20 && u <= NANOS_PER_WEEK && 60 <= k
    ensures NumExact(Number(i, k, f), exp, u) == i * Pow10(Pos(exp)) * u / Pow10(Neg(exp))
  {
    var p, e, d := Pow10(k), Pow10(Pos(exp)), Pow10(Neg(exp));
    assert f * e * u < p by {
      PowGrows(Pos(exp), 20);
      Small(f, e, u);
      PowGrows(60, k);
    }
    hide Pow10;
    hide Quot;
    VanishInProduct(i, p, f, e, u, d);
  }

  lemma {:induction false} VanishInProduct(i: nat, p: nat, f: nat, e: nat, u: nat, d: nat)
    requires f * e * u < p && 0 < d
    ensures Quot((i * p + f) * e * u, p * d) == i * e * u / d
  {
    Spread(i, p, f, e, u);
    FractionVanishes(i * e * u, f * e * u, p, d);
  }

  lemma {:induction false} Spread(i: nat, p: nat, f: nat, e: nat, u: nat)
    ensures (i * p + f) * e * u == (i * e * u) * p + f * e * u
  {
    assert (i * p + f) * e == i * p * e + f * e;
    assert (i * p * e + f * e) * u == i * p * e * u + f * e * u;
    assert i * p * e * u == (i * e * u) * p;
  }

  // ---------------------------------------------------------------------
  // The exact condition
  // ---------------------------------------------------------------------

  /** Two to the power 32, where the digit counter wraps. */
  const WRAP: nat := 0x1_0000_0000

  /** The shift does not saturate, and if the digit count wraps, then to no digits at
      all or with a fraction that does not show even at the wrapped count. */
  predicate ShiftSound(n: Number, exp: int, unit: nat) {
    !Saturates(n, exp) &&
    (n.fracDigits - exp > U32_MAX ==>
       n.fracDigits - exp == WRAP || Shown(n, exp) * unit < Pow10(n.fracDigits - exp - WRAP))
  }

  /** The fraction after the shift. */
  function Shown(n: Number, exp: int): nat
    requires exp <= n.fracDigits
  {
    Scaled(n) % Pow10(n.fracDigits - exp)
  }

  lemma {:induction false} SaturatedIsLess(n: Number, exp: int, unit: nat)
    requires Saturates(n, exp) && 0 < unit
    ensures U64_MAX * unit < NumExact(n, exp, unit)
  {
    var z, d, a := exp - n.fracDigits, n.fracDigits, Scaled(n);
    PowAdd(z, d);
    PowZero();
    hide Pow10;
    hide Scaled;
    hide Quot;
    assert Pow10(Neg(exp)) == 1;
    WholeQuotient(a, Pow10(z), Pow10(d), unit);
  }

  lemma {:induction false} WholeQuotient(a: nat, z: nat, d: nat, u: nat)
    requires U64_MAX < a * z && 0 < d && 0 < u
    ensures U64_MAX * u < Quot(a * (z * d) * u, d * 1)
  {
    var x := a * z;
    Reorder(a, z, d, u);
    DivideSum(x * u, d, 0);
    SmallDivision(0, d);
    Product(U64_MAX + 1, u, x, u);
    assert (U64_MAX + 1) * u == U64_MAX * u + u;
  }

  lemma {:induction false} Reorder(a: nat, z: nat, d: nat, u: nat)
    ensures a * (z * d) * u == (a * z * u) * d
  {
    assert a * (z * d) == (a * z) * d;
    assert (a * z) * d * u == (a * z) * u * d;
  }

  /** With a wrapped digit count the exact product is that of the integer alone. */
  lemma {:induction false} WrappedExact(n: Number, exp: int, unit: nat, m: Number)
    requires exp < 0 && U32_MAX < n.fracDigits - exp && unit <= NANOS_PER_WEEK && Cuts(Scaled(n), n.fracDigits - exp, m)
    ensures NumExact(n, exp, unit) == m.integer * unit
  {
    var k := n.fracDigits - exp;
    NegativeExact(n, exp, unit);
    hide NumExact;
    hide Quot;
    FitsSixty(m.fracValue, unit, k);
    assert Scaled(n) == m.integer * Pow10(k) + m.fracValue;
    hide Scaled;
    hide Pow10;
    hide Cuts;
    IntegerOnly(Scaled(n), m.integer, Pow10(k), m.fracValue, unit);
  }

  lemma {:induction false} FitsSixty(f: nat, unit: nat, k: nat)
    requires f <= U64_MAX && unit <= NANOS_PER_WEEK && 60 <= k
    ensures f * 1 * unit < Pow10(k)
  {
    PowGrows(60, k);
    PowGrows(0, 20);
    PowZero();
    Small(f, 1, unit);
  }

  lemma {:induction false} NegativeExact(n: Number, exp: int, unit: nat)
    requires exp < 0
    ensures NumExact(n, exp, unit) == Quot(Scaled(n) * 1 * unit, Pow10(n.fracDigits - exp))
  {
    PowAdd(n.fracDigits, Neg(exp));
    PowZero();
    hide Pow10;
    hide Scaled;
    hide Quot;
  }

  lemma {:induction false} IntegerOnly(a: nat, i: nat, p: nat, f: nat, u: nat)
    requires a == i * p + f && f * 1 * u < p
    ensures Quot(a * 1 * u, p) == i * u
  {
    assert f * 1 * u == f * u && a * 1 * u == a * u;
    Distribute(i, p, f, u);
    DivideSum(i * u, p, f * u);
    SmallDivision(f * u, p);
  }

  /** What the parser computes from the wrapped number. */
  lemma {:induction false} WrappedProduct(m: Number, unit: nat)
    requires m.fracValue <= U64_MAX && m.fracDigits < 20 && unit <= NANOS_PER_WEEK && 0 < unit
    ensures MultiplyToNanos(m, unit) == m.integer * unit <==> m.fracDigits == 0 || m.fracValue * unit < Pow10(m.fracDigits)
  {
    Product(m.fracValue, unit, U64_MAX, NANOS_PER_WEEK);
    PowGrows(m.fracDigits, 20);
    PowTwenty();
    hide Pow10;
    var x, p := m.fracValue * unit, Pow10(m.fracDigits);
    assert x <= U128_MAX && p <= U128_MAX;
    ZeroQuotient(x, p);
    assert m.fracValue == 0 ==> x == 0;
  }

  lemma {:induction false} ZeroQuotient(x: nat, p: nat)
    requires 0 < p
    ensures x / p == 0 <==> x < p
  {
  }

  /** The exact condition: a shifted number times the unit is what the parser computes,
      if and only if the shift is sound. */
  lemma {:induction false} ShiftNanosIff(n: Number, exp: int, unit: nat)
    requires NumberOk(n) && Shift(n, exp).Ok? && 0 < unit <= NANOS_PER_WEEK
    ensures MultiplyToNanos(Shift(n, exp).value, unit) == NumExact(n, exp, unit) <==> ShiftSound(n, exp, unit)
  {
    hide Shift;
    hide NumExact;
    hide MultiplyToNanos;
    hide Pow10;
    if Saturates(n, exp) {
      SaturatedNanos(n, exp, unit);
    } else if n.fracDigits - exp <= U32_MAX {
      UnwrappedNanos(n, exp, unit);
    } else {
      WrappedNanosIff(n, exp, unit);
    }
  }

  lemma {:induction false} UnwrappedNanos(n: Number, exp: int, unit: nat)
    requires NumberOk(n) && Shift(n, exp).Ok? && unit <= NANOS_PER_WEEK && !Saturates(n, exp) && n.fracDigits - exp <= U32_MAX
    ensures MultiplyToNanos(Shift(n, exp).value, unit) == NumExact(n, exp, unit)
  {
    ShiftExact(n, exp);
    hide Shift;
    hide Saturates;
    hide MultiplyToNanos;
    hide Pow10;
    hide Quot;
    hide Scaled;
    ShiftedExact(n, exp, Shift(n, exp).value, unit);
  }

  lemma {:induction false} SaturatedNanos(n: Number, exp: int, unit: nat)
    requires NumberOk(n) && Shift(n, exp).Ok? && 0 < unit && Saturates(n, exp)
    ensures MultiplyToNanos(Shift(n, exp).value, unit) < NumExact(n, exp, unit)
  {
    ShiftSaturates(n, exp);
    hide Shift;
    hide NumExact;
    SaturatedIsLess(n, exp, unit);
  }

  lemma {:induction false} WrappedNanosIff(n: Number, exp: int, unit: nat)
    requires NumberOk(n) && Shift(n, exp).Ok? && 0 < unit <= NANOS_PER_WEEK && !Saturates(n, exp) && U32_MAX < n.fracDigits - exp
    ensures MultiplyToNanos(Shift(n, exp).value, unit) == NumExact(n, exp, unit)
      <==> n.fracDigits - exp == WRAP || Shown(n, exp) * unit < Pow10(n.fracDigits - exp - WRAP)
  {
    hide Shift;
    hide NumExact;
    hide MultiplyToNanos;
    hide Pow10;
    hide Scaled;
    hide Saturates;
    ShiftCases(n, exp);
    var m, k := Shift(n, exp).value, n.fracDigits - exp;
    CutDigits(Scaled(n), k, m);
    WrappedExact(n, exp, unit, m);
    WrappedProduct(m, unit);
  }

  lemma {:induction false} CutDigits(all: nat, k: nat, m: Number)
    requires Cuts(all, k, m) && WRAP <= k < WRAP + 20
    ensures m.fracDigits == k - WRAP && m.fracValue == all % Pow10(k) && m.fracValue <= U64_MAX
  {
    hide Pow10;
    Remainder(m.integer, Pow10(k), m.fracValue);
  }

  // ---------------------------------------------------------------------
  // A number where it fails
  // ---------------------------------------------------------------------

  /** u32::MAX fraction digits and exponent -20: the counter wraps to 19 digits and the
      parser finds 1.8 seconds where the exact value is far below a nanosecond. */
  lemma {:induction false} WrapShows()
    ensures var n := Number(0, U32_MAX, U64_MAX);
      && NumberOk(n) && Shift(n, -20) == Ok(Number(0, 19, U64_MAX))
      && MultiplyToNanos(Number(0, 19, U64_MAX), NANOS_PER_SECOND) == 1_844_674_407
      && NumExact(n, -20, NANOS_PER_SECOND) == 0
  {
    var n := Number(0, U32_MAX, U64_MAX);
    PowBig(U32_MAX);
    WrapShift(n);
    assert Cuts(Scaled(n), U32_MAX + 20, Number(0, 19, U64_MAX)) by {
      ShiftSplitCuts(n, U32_MAX + 20);
    }
    WrappedExact(n, -20, NANOS_PER_SECOND, Number(0, 19, U64_MAX));
    PowNineteen();
  }

  lemma {:induction false} PowNineteen()
    ensures Pow10(19) == 10_000_000_000_000_000_000
  {
    PowTwenty();
    assert Pow10(20) == 10 * Pow10(19);
  }

  lemma {:induction false} WrapShift(n: Number)
    requires n == Number(0, U32_MAX, U64_MAX) && U64_MAX < Pow10(U32_MAX)
    ensures Shift(n, -20) == ShiftSplit(n, U32_MAX + 20) == Ok(Number(0, 19, U64_MAX))
  {
    hide Pow10, Dec, Zeros, Val, FracText;
    FracTextIs(n);
    AllTextIs(n);
    ZeroText();
    var s := AllText(n);
    assert |s| == U32_MAX + 1;
    assert Val(s) == U64_MAX by {
      assert 0 * Pow10(U32_MAX) == 0;
    }
    hide AllText;
    CutPadded(s, U32_MAX + 20);
  }

  lemma {:induction false} ZeroText()
    ensures |Dec(0)| == 1
  {
  }
}
