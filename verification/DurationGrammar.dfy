/** The language the duration parser accepts, as a grammar of segments, and what
    a text means: the parser is proved to accept exactly the segment lists whose
    numbers fit, and to return the sum of their exact values. */
module DurationGrammar {
  import opened Prelude
  import opened Decimal
  import opened DurationNumber
  import opened DurationExact
  import opened DurationText

  datatype ExpText = ExpText(mark: char, sign: string, digits: string)

  /** One segment: white space, a decimal number, an exponent and a unit. */
  datatype Seg = Seg(gap: string, whole: string, dot: bool, frac: string, exp: Option<ExpText>, unit: Unit)

  predicate AllSpace(s: string) {
    forall i :: 0 <= i < |s| ==> IsSpace(s[i])
  }

  function DotText(g: Seg): string {
    if g.dot then ['.'] + g.frac else []
  }

  function ExpPart(g: Seg): string {
    match g.exp
    case None => []
    case Some(x) => [x.mark] + x.sign + x.digits
  }

  /** The segment without its white space, in front of what follows it. */
  function Body(g: Seg, rest: string): string {
    g.whole + DotText(g) + (ExpPart(g) + (g.unit.suffix + rest))
  }

  ghost predicate ExpOk(x: ExpText) {
    && (x.mark == 'e' || x.mark == 'E')
    && (x.sign == "" || x.sign == "-" || x.sign == "+")
    && AllDigits(x.digits) && x.digits != []
  }

  ghost predicate SegOk(g: Seg) {
    && AllSpace(g.gap) && AllDigits(g.whole) && AllDigits(g.frac)
    && (!g.dot ==> g.frac == []) && (g.whole != [] || g.frac != [])
    && (g.exp.Some? ==> ExpOk(g.exp.value))
  }

  predicate Starts(s: string, p: char -> bool) {
    s != [] && p(s[0])
  }

  /** Every piece is as long as it can be. */
  ghost predicate Greedy(g: Seg, rest: string) {
    var after := g.unit.suffix + rest;
    && g.unit == UnitOf(after)
    && !Starts(after, IsDigit)
    && (g.exp.None? ==> !StartsExponent(after) && (!g.dot ==> after == [] || after[0] != '.'))
  }

  /** `s` consists of the segments `segs` and trailing white space. */
  ghost predicate Decomposes(s: string, segs: seq<Seg>)
    decreases |segs|
  {
    if segs == [] then AllSpace(s)
    else exists rest :: IsSegment(s, segs[0], rest) && Decomposes(rest, segs[1..])
  }

  ghost predicate IsSegment(s: string, g: Seg, rest: string) {
    SegOk(g) && Greedy(g, rest) && s == g.gap + Body(g, rest)
  }

  // ---------------------------------------------------------------------
  // What a segment means.
  // ---------------------------------------------------------------------

  function ExpOf(g: Seg): int
    requires g.exp.Some? ==> AllDigits(g.exp.value.digits)
  {
    match g.exp
    case None => 0
    case Some(x) => if x.sign == "-" then 0 - Val(x.digits) else Val(x.digits)
  }

  /** The decimal value times the unit, rounded down to nanoseconds. */
  function Exact(g: Seg): nat
    requires AllDigits(g.whole + g.frac) && (g.exp.Some? ==> AllDigits(g.exp.value.digits))
  {
    Quot(Val(g.whole + g.frac) * Pow10(Pos(ExpOf(g))) * g.unit.nanos, Pow10(|g.frac|) * Pow10(Neg(ExpOf(g))))
  }

  /** The number before the exponent is applied; more fraction digits than u32 can
      count are counted as u32::MAX. */
  function Mantissa(g: Seg): Number
    requires AllDigits(g.whole) && AllDigits(g.frac)
  {
    Number(Val(g.whole), if |g.frac| > U32_MAX then U32_MAX else |g.frac|, Val(g.frac))
  }

  /** The exponent does no harm: it neither saturates the integer nor wraps the digit
      count of a fraction that shows. */
  ghost predicate Sound(g: Seg)
    requires SegOk(g)
  {
    g.exp.Some? ==> ShiftSound(Mantissa(g), ExpOf(g), g.unit.nanos)
  }

  /** The parser's own number for the segment. */
  function SegNumber(g: Seg): Result<Number>
    requires AllDigits(g.whole) && AllDigits(g.frac) && (g.exp.Some? ==> AllDigits(g.exp.value.digits))
  {
    match Convert(Lexed(g.whole, g.dot, g.frac, []))
    case Err(e) => Err(e)
    case Ok(n) =>
      if g.exp.None? then Ok(n)
      else if Val(g.exp.value.digits) > I32_MAX then Err(InvalidInput)
      else Shift(n, ExpOf(g))
  }

  lemma {:induction false} FracScaled(g: Seg)
    requires SegOk(g)
    ensures AllDigits(g.whole + g.frac)
    ensures Val(g.whole + g.frac) == Val(g.whole) * Pow10(|g.frac|) + Val(g.frac) && Val(g.frac) < Pow10(|g.frac|)
  {
    ValAppend(g.whole, g.frac);
    ValBound(g.frac);
  }

  /** Without an exponent every accepted number is exact. */
  lemma {:induction false} PlainExact(g: Seg)
    requires SegOk(g) && g.exp.None? && SegNumber(g).Ok? && g.unit.nanos <= NANOS_PER_WEEK
    ensures AllDigits(g.whole + g.frac) && MultiplyToNanos(SegNumber(g).value, g.unit.nanos) == Exact(g)
  {
    hide Val;
    hide Exact;
    FracScaled(g);
    PlainNumber(g);
    PlainValue(g);
    hide SegNumber;
    hide Quot;
    PlainMultiply(SegNumber(g).value, |g.frac|, g.unit.nanos);
  }

  lemma {:induction false} PlainNumber(g: Seg)
    requires SegOk(g) && g.exp.None? && SegNumber(g).Ok?
    ensures SegNumber(g).value == Number(Val(g.whole), if |g.frac| > U32_MAX then U32_MAX else |g.frac|, Val(g.frac))
    ensures Val(g.frac) <= U64_MAX
  {
    hide Val;
  }

  lemma {:induction false} PlainValue(g: Seg)
    requires AllDigits(g.whole + g.frac) && g.exp.None?
    ensures Exact(g) == Quot(Val(g.whole + g.frac) * 1 * g.unit.nanos, Pow10(|g.frac|) * 1)
  {
    PowZero();
    hide Pow10;
    hide Val;
    hide Quot;
  }

  lemma {:induction false} PlainMultiply(n: Number, digits: nat, unit: nat)
    requires n.fracValue <= U64_MAX && n.fracValue < Pow10(digits) && unit <= NANOS_PER_WEEK
    requires n.fracDigits == if digits > U32_MAX then U32_MAX else digits
    ensures MultiplyToNanos(n, unit) == Quot((n.integer * Pow10(digits) + n.fracValue) * 1 * unit, Pow10(digits) * 1)
  {
    hide Pow10;
    hide MultiplyToNanos;
    if digits <= U32_MAX {
      MultiplyExact(n, unit);
    } else {
      ManyDigits(n, digits, unit);
    }
  }

  /** The exact value in terms of the parser's mantissa: digits beyond those it counts
      are far below one nanosecond. */
  lemma {:induction false} ExactOfMantissa(g: Seg)
    requires SegOk(g) && Val(g.frac) <= U64_MAX && -20 <= ExpOf(g) <= 20 && g.unit.nanos <= NANOS_PER_WEEK
    ensures AllDigits(g.whole + g.frac) && Exact(g) == NumExact(Mantissa(g), ExpOf(g), g.unit.nanos)
  {
    FracScaled(g);
    if |g.frac| > U32_MAX {
      var n := Mantissa(g);
      hide Val;
      MoreDigits(n.integer, n.fracValue, ExpOf(g), g.unit.nanos, |g.frac|, U32_MAX);
    }
  }

  /** A segment's number, multiplied by its unit, is its exact value, if and only if
      its exponent does no harm. */
  lemma {:induction false} SegmentExactIff(g: Seg)
    requires SegOk(g) && SegNumber(g).Ok? && 0 < g.unit.nanos <= NANOS_PER_WEEK
    ensures AllDigits(g.whole + g.frac) && (MultiplyToNanos(SegNumber(g).value, g.unit.nanos) == Exact(g) <==> Sound(g))
  {
    if g.exp.None? {
      PlainExact(g);
    } else {
      FracScaled(g);
      MantissaOk(g);
      hide MultiplyToNanos;
      hide Exact;
      hide NumExact;
      hide ShiftSound;
      ExactOfMantissa(g);
      ShiftNanosIff(Mantissa(g), ExpOf(g), g.unit.nanos);
    }
  }

  lemma {:induction false} MantissaOk(g: Seg)
    requires SegOk(g) && g.exp.Some? && SegNumber(g).Ok?
    ensures NumberOk(Mantissa(g)) && SegNumber(g) == Shift(Mantissa(g), ExpOf(g)) && -20 <= ExpOf(g) <= 20
  {
    FracScaled(g);
    hide Val;
    if |g.frac| > U32_MAX {
      PowBig(U32_MAX);
    }
  }
}
