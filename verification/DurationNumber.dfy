/** Decimal numbers of the duration parser: integer and fraction without floating
    point, the exponent shift, and the multiplication by a unit. */
module DurationNumber {
  import opened Prelude
  import opened Decimal

  const U128_MAX: nat := 0xFFFF_FFFF_FFFF_FFFF_FFFF_FFFF_FFFF_FFFF
  const MAX_EXPONENT_MAGNITUDE: int := 20
  const NANOS_PER_SECOND: nat := 1_000_000_000
  const NANOS_PER_WEEK: nat := 604_800_000_000_000

  datatype Result<+T> = Ok(value: T) | Err(error: ParseError)
  datatype ParseError = InvalidInput | Syntax(position: nat)

  /** The number `integer.frac` whose fraction has `fracDigits` digits of value
      `fracValue`. */
  datatype Number = Number(integer: nat, fracDigits: nat, fracValue: nat)

  ghost predicate NumberOk(n: Number) {
    n.integer <= U64_MAX && n.fracValue <= U64_MAX && n.fracDigits <= U32_MAX && n.fracValue < Pow10(n.fracDigits)
  }

  /** The number times ten to the power of its fraction digits. */
  function Scaled(n: Number): nat {
    n.integer * Pow10(n.fracDigits) + n.fracValue
  }

  // ---------------------------------------------------------------------
  // Multiplication by the unit.
  // ---------------------------------------------------------------------

  function MultiplyToNanos(n: Number, unit: nat): nat {
    n.integer * unit +
    if n.fracDigits > 0 && n.fracValue > 0 then FracNanos(n.fracValue * unit, Pow10(n.fracDigits)) else 0
  }

  /** The fraction's share; zero if the denominator or the numerator does not fit
      u128. */
  function FracNanos(numerator: nat, denominator: nat): nat
    requires 0 < denominator
  {
    if denominator > U128_MAX || numerator > U128_MAX then 0 else numerator / denominator
  }

  lemma {:induction false} PowBig(d: nat)
    requires 39 <= d
    ensures U128_MAX < Pow10(d)
  {
    PowGrows(39, d);
    assert Pow10(39) == 1_000_000_000_000_000_000_000_000_000_000_000_000_000 by {
      PowAdd(13, 26);
      PowAdd(13, 13);
      Pow13();
    }
  }

  lemma {:induction false} Pow13()
    ensures Pow10(13) == 10_000_000_000_000
  {
    assert Pow10(3) == 1000;
    assert Pow10(6) == 1_000_000;
    assert Pow10(9) == 1_000_000_000;
    assert Pow10(12) == 1_000_000_000_000;
  }

  lemma {:induction false} Product(a: nat, b: nat, m: nat, n: nat)
    requires a <= m && b <= n
    ensures a * b <= m * n
  {
    assert a * b <= m * b;
    assert m * b <= m * n;
  }

  lemma {:induction false} SmallDivision(x: nat, d: nat)
    requires x < d
    ensures x / d == 0
  {
  }

  /** Division of a whole multiple plus a remainder. */
  lemma {:induction false} DivideSum(w: nat, d: nat, x: nat)
    requires 0 < d
    ensures (w * d + x) / d == w + x / d
  {
    var q, r := x / d, x % d;
    assert w * d + x == (w + q) * d + r;
    Quotient(w * d + x, d, w + q, r);
  }

  lemma {:induction false} Quotient(x: nat, d: nat, q: nat, r: nat)
    requires x == q * d + r && r < d
    ensures x / d == q
  {
    Unique(x / d, q, d, x % d, r);
  }

  lemma {:induction false} Unique(p: nat, q: nat, d: nat, r: nat, s: nat)
    requires p * d + r == q * d + s && r < d && s < d
    ensures p == q
  {
    if p < q {
      Below(p, q, d, r);
    } else if q < p {
      Below(q, p, d, s);
    }
  }

  lemma {:induction false} Below(p: nat, q: nat, d: nat, r: nat)
    requires p < q && r < d
    ensures p * d + r < q * d
  {
    Product(p + 1, d, q, d);
    assert (p + 1) * d == p * d + d;
  }

  /** Exactness of the multiplication: the result is the number times the unit,
      rounded down.  In particular the fallback taken when 10^fracDigits exceeds
      u128 drops a term that is zero. */
  lemma {:induction false} MultiplyExact(n: Number, unit: nat)
    requires n.fracValue <= U64_MAX && n.fracValue < Pow10(n.fracDigits) && unit <= NANOS_PER_WEEK
    ensures MultiplyToNanos(n, unit) == Scaled(n) * unit / Pow10(n.fracDigits)
  {
    var p := Pow10(n.fracDigits);
    Product(n.fracValue, unit, U64_MAX, NANOS_PER_WEEK);
    assert U64_MAX * NANOS_PER_WEEK <= U128_MAX;
    if p > U128_MAX {
      SmallDivision(n.fracValue * unit, p);
    }
    Distribute(n.integer, p, n.fracValue, unit);
    DivideSum(n.integer * unit, p, n.fracValue * unit);
    if n.fracValue == 0 {
      SmallDivision(0, p);
    }
  }

  lemma {:induction false} Distribute(i: nat, p: nat, f: nat, u: nat)
    ensures (i * p + f) * u == (i * u) * p + f * u
  {
    assert (i * p) * u == (i * u) * p;
  }

  /** More fraction digits than `fracDigits` can count (saturated at u32::MAX) do
      not change the result either: the fraction is far below one nanosecond. */
  lemma {:induction false} ManyDigits(n: Number, digits: nat, unit: nat)
    requires n.fracValue <= U64_MAX && unit <= NANOS_PER_WEEK && 39 <= n.fracDigits && 39 <= digits
    ensures MultiplyToNanos(n, unit) == (n.integer * Pow10(digits) + n.fracValue) * unit / Pow10(digits)
  {
    var m := n.(fracDigits := digits);
    PowBig(n.fracDigits);
    PowBig(digits);
    MultiplyExact(m, unit);
    assert MultiplyToNanos(m, unit) == m.integer * unit == MultiplyToNanos(n, unit);
  }

  // ---------------------------------------------------------------------
  // The exponent shift.
  // ---------------------------------------------------------------------

  /** `as u32`. */
  function Wrap32(n: nat): nat {
    n % 0x1_0000_0000
  }

  /** The fraction, padded with leading zeros to its number of digits. */
  function FracText(n: Number): (s: string)
    ensures AllDigits(s)
  {
    if n.fracDigits == 0 then []
    else
      var raw := Dec(n.fracValue);
      Zeros(if n.fracDigits < |raw| then 0 else n.fracDigits - |raw|) + raw
  }

  function AllText(n: Number): (s: string)
    ensures AllDigits(s)
  {
    Dec(n.integer) + FracText(n)
  }

  function ShiftWhole(n: Number, zeros: nat): Result<Number> {
    var all := Val(AllText(n));
    if all > U128_MAX then Err(InvalidInput)
    else if Pow10(zeros) > U128_MAX then Ok(Number(U64_MAX, 0, 0))
    else if all * Pow10(zeros) > U64_MAX then Ok(Number(U64_MAX, 0, 0))
    else Ok(Number(all * Pow10(zeros), 0, 0))
  }

  function ShiftSplit(n: Number, fracCount: nat): Result<Number> {
    var s := AllText(n);
    if fracCount >= |s| then
      var padded := Zeros(fracCount - |s|) + s;
      if Val(padded) > U64_MAX then Err(InvalidInput) else Ok(Number(0, Wrap32(|padded|), Val(padded)))
    else
      var i, f := s[..|s| - fracCount], s[|s| - fracCount..];
      if Val(i) > U64_MAX || Val(f) > U64_MAX then Err(InvalidInput) else Ok(Number(Val(i), Wrap32(|f|), Val(f)))
  }

  /** The number with its decimal point moved `exp` places to the right. */
  function Shift(n: Number, exp: int): Result<Number> {
    if exp < -MAX_EXPONENT_MAGNITUDE || MAX_EXPONENT_MAGNITUDE < exp then Err(InvalidInput)
    else
      var fracCount := n.fracDigits - exp;
      if fracCount <= 0 then ShiftWhole(n, -fracCount) else ShiftSplit(n, fracCount)
  }

  lemma {:induction false} FracTextIs(n: Number)
    requires n.fracValue < Pow10(n.fracDigits)
    ensures |FracText(n)| == n.fracDigits && Val(FracText(n)) == n.fracValue
  {
    if n.fracDigits > 0 {
      var raw := Dec(n.fracValue);
      DecLength(n.fracValue, n.fracDigits);
      var pad := Zeros(n.fracDigits - |raw|);
      ValAppend(pad, raw);
      ValZeros(|pad|);
      ValDec(n.fracValue);
    }
  }

  lemma {:induction false} AllTextIs(n: Number)
    requires n.fracValue < Pow10(n.fracDigits)
    ensures Val(AllText(n)) == Scaled(n)
  {
    FracTextIs(n);
    ValAppend(Dec(n.integer), FracText(n));
    ValDec(n.integer);
  }

  /** How the split cuts the digits. */
  ghost predicate Cuts(all: nat, fracCount: nat, m: Number) {
    && m.integer * Pow10(fracCount) + m.fracValue == all
    && m.fracValue < Pow10(fracCount) && m.fracDigits == Wrap32(fracCount)
    && m.integer <= U64_MAX && m.fracValue <= U64_MAX
  }

  lemma {:induction false} CutPadded(s: string, fracCount: nat)
    requires AllDigits(s) && |s| <= fracCount
    ensures var padded := Zeros(fracCount - |s|) + s; |padded| == fracCount && Val(padded) == Val(s) < Pow10(fracCount)
  {
    hide Pow10;
    var pad := Zeros(fracCount - |s|);
    ValAppend(pad, s);
    ValZeros(|pad|);
    ValBound(pad + s);
  }

  lemma {:induction false} CutInside(s: string, fracCount: nat)
    requires AllDigits(s) && fracCount < |s|
    ensures var i, f := s[..|s| - fracCount], s[|s| - fracCount..];
      |f| == fracCount && Val(i) * Pow10(fracCount) + Val(f) == Val(s) && Val(f) < Pow10(fracCount)
  {
    hide Pow10;
    var i, f := s[..|s| - fracCount], s[|s| - fracCount..];
    assert s == i + f;
    ValAppend(i, f);
    ValBound(f);
  }

  lemma {:induction false} ShiftSplitCuts(n: Number, fracCount: nat)
    requires n.fracValue < Pow10(n.fracDigits) && ShiftSplit(n, fracCount).Ok?
    ensures Cuts(Scaled(n), fracCount, ShiftSplit(n, fracCount).value)
  {
    hide Pow10;
    hide Wrap32;
    var s := AllText(n);
    AllTextIs(n);
    hide AllText;
    hide Scaled;
    if fracCount >= |s| {
      CutPadded(s, fracCount);
    } else {
      CutInside(s, fracCount);
    }
  }

  /** The shift saturated: the shifted integer does not fit u64. */
  predicate Saturates(n: Number, exp: int) {
    n.fracDigits <= exp && Scaled(n) * Pow10(exp - n.fracDigits) > U64_MAX
  }

  function Neg(exp: int): nat {
    if exp < 0 then -exp else 0
  }

  function Pos(exp: int): nat {
    if exp < 0 then 0 else exp
  }

  /** The rational value of `m` is the value of `n` times ten to the power `exp`. */
  ghost predicate IsShifted(n: Number, exp: int, m: Number) {
    Scaled(m) * (Pow10(n.fracDigits) * Pow10(Neg(exp))) == Scaled(n) * (Pow10(m.fracDigits) * Pow10(Pos(exp)))
  }

  lemma {:induction false} WholeShifted(n: Number, exp: int)
    requires NumberOk(n) && n.fracDigits <= exp <= MAX_EXPONENT_MAGNITUDE && !Saturates(n, exp) && Shift(n, exp).Ok?
    ensures Shift(n, exp).value == Number(Scaled(n) * Pow10(exp - n.fracDigits), 0, 0)
  {
    AllTextIs(n);
    hide Pow10;
    hide AllText;
    hide Scaled;
    assert Shift(n, exp) == ShiftWhole(n, exp - n.fracDigits);
    var p := Pow10(exp - n.fracDigits);
    assert p <= U128_MAX by {
      PowGrows(exp - n.fracDigits, 20);
      PowTwenty();
    }
  }

  lemma {:induction false} PowTwenty()
    ensures Pow10(20) == 100_000_000_000_000_000_000
  {
    PowAdd(7, 13);
    Pow13();
    assert Pow10(3) == 1000;
    assert Pow10(7) == 10_000_000;
  }

  /** Scaling both sides of a cut by the same power. */
  lemma {:induction false} CutShifted(n: Number, exp: int, m: Number, fracCount: nat)
    requires fracCount == n.fracDigits - exp && m.fracDigits == fracCount && Scaled(m) == Scaled(n)
    ensures IsShifted(n, exp, m)
  {
    hide Scaled;
    PowAdd(n.fracDigits, Neg(exp));
    PowAdd(fracCount, Pos(exp));
  }

  /** With a wrapped digit count only a vanishing fraction keeps its value. */
  lemma {:induction false} CutWrapped(n: Number, exp: int, m: Number, fracCount: nat)
    requires fracCount == n.fracDigits - exp && exp < 0 && m.fracDigits < fracCount && Cuts(Scaled(n), fracCount, m)
    ensures IsShifted(n, exp, m) <==> m.fracValue == 0
  {
    var w, p := Pow10(m.fracDigits), Pow10(fracCount);
    PowAdd(n.fracDigits, Neg(exp));
    PowLess(m.fracDigits, fracCount);
    hide Pow10;
    assert Pos(exp) == 0 && Pow10(0) == 1 by {
      PowZero();
    }
    Cross(m.integer, m.fracValue, w, p);
  }

  lemma {:induction false} PowZero()
    ensures Pow10(0) == 1
  {
  }

  lemma {:induction false} PowLess(a: nat, b: nat)
    requires a < b
    ensures Pow10(a) < Pow10(b)
  {
    PowGrows(a, b - 1);
  }

  lemma {:induction false} Cross(i: nat, f: nat, w: nat, p: nat)
    requires 0 < w < p
    ensures (i * w + f) * p == (i * p + f) * w <==> f == 0
  {
    assert (i * w) * p == (i * p) * w;
    assert (i * w + f) * p == (i * w) * p + f * p;
    assert (i * p + f) * w == (i * p) * w + f * w;
    assert f * p - f * w == f * (p - w);
    assert f > 0 ==> f * (p - w) > 0;
  }

  /** Shifting preserves the rational value exactly, if and only if the count of
      fraction digits stays within u32 or the wrapped fraction is zero. */
  lemma {:induction false} ShiftExactIff(n: Number, exp: int)
    requires NumberOk(n) && Shift(n, exp).Ok? && !Saturates(n, exp)
    ensures var m := Shift(n, exp).value;
      IsShifted(n, exp, m) <==> n.fracDigits - exp <= U32_MAX || Scaled(n) % Pow10(n.fracDigits - exp) == 0
  {
    hide Pow10;
    hide Scaled;
    hide IsShifted;
    hide Shift;
    ShiftCases(n, exp);
    var m, fracCount := Shift(n, exp).value, n.fracDigits - exp;
    if fracCount <= 0 {
      WholeIsShifted(n, exp, m);
    } else if fracCount <= U32_MAX {
      CutScaled(Scaled(n), fracCount, m);
      CutShifted(n, exp, m, fracCount);
    } else {
      CutWrapped(n, exp, m, fracCount);
      Remainder(m.integer, Pow10(fracCount), m.fracValue);
    }
  }

  /** `m` is `n` with its decimal point moved in front of the last `fracCount` digits. */
  ghost predicate Moved(n: Number, fracCount: int, m: Number) {
    if fracCount <= 0 then m == Number(Scaled(n) * Pow10(-fracCount), 0, 0) else Cuts(Scaled(n), fracCount, m)
  }

  lemma {:induction false} ShiftCases(n: Number, exp: int)
    requires NumberOk(n) && Shift(n, exp).Ok? && !Saturates(n, exp)
    ensures -MAX_EXPONENT_MAGNITUDE <= exp <= MAX_EXPONENT_MAGNITUDE
    ensures Moved(n, n.fracDigits - exp, Shift(n, exp).value)
  {
    hide ShiftWhole, ShiftSplit, Pow10, Scaled, Saturates, Cuts, NumberOk, Moved;
    if n.fracDigits <= exp {
      hide Shift;
      WholeMoved(n, exp);
    } else {
      assert Shift(n, exp) == ShiftSplit(n, n.fracDigits - exp);
      hide Shift;
      SplitMoved(n, n.fracDigits - exp);
    }
  }

  lemma {:induction false} WholeMoved(n: Number, exp: int)
    requires NumberOk(n) && n.fracDigits <= exp && !Saturates(n, exp) && Shift(n, exp).Ok?
    ensures Moved(n, n.fracDigits - exp, Shift(n, exp).value)
  {
    assert exp <= MAX_EXPONENT_MAGNITUDE;
    hide Shift, Pow10, Scaled, Saturates, NumberOk;
    WholeShifted(n, exp);
    assert -(n.fracDigits - exp) == exp - n.fracDigits;
  }

  lemma {:induction false} SplitMoved(n: Number, fracCount: nat)
    requires NumberOk(n) && 0 < fracCount && ShiftSplit(n, fracCount).Ok?
    ensures Moved(n, fracCount, ShiftSplit(n, fracCount).value)
  {
    hide Pow10, Scaled, Cuts, ShiftSplit;
    ShiftSplitCuts(n, fracCount);
  }

  lemma {:induction false} WholeIsShifted(n: Number, exp: int, m: Number)
    requires n.fracDigits <= exp && m == Number(Scaled(n) * Pow10(exp - n.fracDigits), 0, 0)
    ensures IsShifted(n, exp, m)
  {
    var z, d := exp - n.fracDigits, n.fracDigits;
    PowAdd(z, d);
    PowZero();
    hide Pow10;
    assert Scaled(m) == m.integer;
    Regroup(Scaled(n), Pow10(z), Pow10(d));
  }

  lemma {:induction false} Regroup(a: nat, b: nat, c: nat)
    ensures a * b * c == a * (b * c)
  {
  }

  lemma {:induction false} CutScaled(all: nat, fracCount: nat, m: Number)
    requires Cuts(all, fracCount, m) && fracCount <= U32_MAX
    ensures m.fracDigits == fracCount && Scaled(m) == all && NumberOk(m)
  {
  }

  lemma {:induction false} Remainder(i: nat, p: nat, f: nat)
    requires f < p
    ensures (i * p + f) % p == f
  {
    Quotient(i * p + f, p, i, f);
  }

  /** What the parser gets out of a shift that neither wraps nor saturates. */
  lemma {:induction false} ShiftExact(n: Number, exp: int)
    requires NumberOk(n) && n.fracDigits - exp <= U32_MAX && Shift(n, exp).Ok? && !Saturates(n, exp)
    ensures NumberOk(Shift(n, exp).value) && IsShifted(n, exp, Shift(n, exp).value)
    ensures Shift(n, exp).value.fracDigits == Pos(n.fracDigits - exp)
  {
    hide Shift;
    hide Scaled;
    hide IsShifted;
    ShiftCases(n, exp);
    ShiftExactIff(n, exp);
    var fracCount := n.fracDigits - exp;
    if fracCount > 0 {
      CutScaled(Scaled(n), fracCount, Shift(n, exp).value);
    }
  }

  /** A saturated shift is the cap, whatever the number. */
  lemma {:induction false} ShiftSaturates(n: Number, exp: int)
    requires NumberOk(n) && Saturates(n, exp) && Shift(n, exp).Ok?
    ensures Shift(n, exp).value == Number(U64_MAX, 0, 0)
  {
    AllTextIs(n);
  }

  /** Integer and fraction both fit u64 when `v` is cut at `p`. */
  ghost predicate PartsFit(v: nat, p: nat)
    requires 0 < p
  {
    v / p <= 0xFFFF_FFFF_FFFF_FFFF && v % p <= 0xFFFF_FFFF_FFFF_FFFF
  }

  lemma {:induction false} PartsFitIff(v: nat, p: nat, i: nat, f: nat)
    requires v == i * p + f && f < p
    ensures PartsFit(v, p) <==> i <= U64_MAX && f <= U64_MAX
  {
    Quotient(v, p, i, f);
    Remainder(i, p, f);
  }

  /** What the shifted digits must fit: digits that all become integer need only fit
      u128, otherwise both parts must fit u64. */
  ghost predicate ShiftFits(n: Number, exp: int) {
    if n.fracDigits <= exp then Scaled(n) <= 0xFFFF_FFFF_FFFF_FFFF_FFFF_FFFF_FFFF_FFFF else PartsFit(Scaled(n), Pow10(n.fracDigits - exp))
  }

  /** Which exponents are accepted: a magnitude of at most twenty, and parts that fit. */
  lemma {:induction false} ShiftOkIff(n: Number, exp: int)
    requires NumberOk(n)
    ensures Shift(n, exp).Ok? <==> -20 <= exp <= 20 && ShiftFits(n, exp)
  {
    hide PartsFit;
    hide Pow10;
    hide ShiftSplit;
    hide ShiftWhole;
    hide Scaled;
    if exp < n.fracDigits {
      SplitOkIff(n, n.fracDigits - exp);
    } else {
      WholeOkIff(n, exp - n.fracDigits);
    }
  }

  lemma {:induction false} WholeOkIff(n: Number, zeros: nat)
    requires NumberOk(n)
    ensures ShiftWhole(n, zeros).Ok? <==> Scaled(n) <= U128_MAX
  {
    AllTextIs(n);
    hide Scaled;
    hide AllText;
    hide Pow10;
    hide Val;
  }

  lemma {:induction false} PaddedFits(s: string, k: nat)
    requires AllDigits(s) && |s| <= k
    ensures Val(Zeros(k - |s|) + s) <= U64_MAX <==> PartsFit(Val(s), Pow10(k))
  {
    CutPadded(s, k);
    hide Pow10;
    hide Val;
    hide Zeros;
    hide PartsFit;
    PartsFitIff(Val(s), Pow10(k), 0, Val(s));
  }

  lemma {:induction false} InsideFits(s: string, k: nat)
    requires AllDigits(s) && k < |s|
    ensures Val(s[..|s| - k]) <= U64_MAX && Val(s[|s| - k..]) <= U64_MAX <==> PartsFit(Val(s), Pow10(k))
  {
    CutInside(s, k);
    hide Pow10;
    hide Val;
    hide PartsFit;
    PartsFitIff(Val(s), Pow10(k), Val(s[..|s| - k]), Val(s[|s| - k..]));
  }

  lemma {:induction false} SplitOkText(n: Number, k: nat)
    ensures ShiftSplit(n, k).Ok? <==> PartsFit(Val(AllText(n)), Pow10(k))
  {
    hide AllText;
    hide PartsFit;
    hide Pow10;
    hide Val;
    hide Zeros;
    var s := AllText(n);
    if k >= |s| {
      PaddedFits(s, k);
    } else {
      InsideFits(s, k);
    }
  }

  lemma {:induction false} SplitOkIff(n: Number, k: nat)
    requires NumberOk(n)
    ensures ShiftSplit(n, k).Ok? <==> PartsFit(Scaled(n), Pow10(k))
  {
    AllTextIs(n);
    SplitOkText(n, k);
    hide *;
  }
}
