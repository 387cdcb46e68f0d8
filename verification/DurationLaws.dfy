/** The parser against the grammar: which texts are accepted, and with what value. */
module DurationLaws {
  import opened Prelude
  import opened Decimal
  import opened DurationNumber
  import opened DurationExact
  import opened DurationText
  import opened DurationGrammar

  // ---------------------------------------------------------------------
  // The pieces of a segment are found again.
  // ---------------------------------------------------------------------

  lemma {:induction false} LexDot(whole: string, frac: string, tail: string)
    requires AllDigits(whole) && AllDigits(frac) && !Starts(tail, IsDigit)
    ensures Lex(whole + (['.'] + frac) + tail) == Lexed(whole, true, frac, tail)
  {
    hide Run;
    var s, n := whole + (['.'] + frac) + tail, |whole|;
    assert s == whole + (['.'] + frac + tail);
    RunIs(whole, ['.'] + frac + tail);
    assert s[n + 1..] == frac + tail && s[..n] == whole;
    RunIs(frac, tail);
  }

  lemma {:induction false} LexPlain(whole: string, tail: string)
    requires AllDigits(whole) && !Starts(tail, IsDigit) && (tail == [] || tail[0] != '.')
    ensures Lex(whole + tail) == Lexed(whole, false, [], tail)
  {
    hide Run;
    RunIs(whole, tail);
    assert (whole + tail)[..|whole|] == whole && (whole + tail)[|whole|..] == tail;
  }

  lemma {:induction false} LexBody(g: Seg, rest: string)
    requires SegOk(g) && Greedy(g, rest)
    ensures Lex(Body(g, rest)) == Lexed(g.whole, g.dot, g.frac, ExpPart(g) + (g.unit.suffix + rest))
  {
    hide Lex;
    hide UnitOf;
    hide AllSpace;
    hide AllDigits;
    var tail := ExpPart(g) + (g.unit.suffix + rest);
    TailStarts(g, g.unit.suffix + rest);
    if g.dot {
      LexDot(g.whole, g.frac, tail);
    } else {
      assert g.whole + [] + tail == g.whole + tail;
      LexPlain(g.whole, tail);
    }
  }

  lemma {:induction false} TailStarts(g: Seg, after: string)
    requires g.exp.Some? ==> ExpOk(g.exp.value)
    requires !Starts(after, IsDigit) && (g.exp.None? ==> !g.dot ==> after == [] || after[0] != '.')
    ensures !Starts(ExpPart(g) + after, IsDigit)
    ensures !g.dot ==> ExpPart(g) + after == [] || (ExpPart(g) + after)[0] != '.'
  {
    if g.exp.None? {
      assert ExpPart(g) + after == after;
    } else {
      assert (ExpPart(g) + after)[0] == g.exp.value.mark;
    }
  }

  lemma {:induction false} LexExpText(x: ExpText, after: string)
    requires ExpOk(x) && !Starts(after, IsDigit)
    ensures LexExp(x.sign + x.digits + after) == ExpLexed(x.sign, x.digits, after)
  {
    hide Run;
    var s, k := x.sign + x.digits + after, |x.sign|;
    RunIs(x.digits, after);
    assert s[k..] == x.digits + after && s[..k] == x.sign;
    assert x.sign == "" ==> s[0] == x.digits[0];
    assert k == if s[0] == '-' || s[0] == '+' then 1 else 0;
    assert (x.digits + after)[..|x.digits|] == x.digits && (x.digits + after)[|x.digits|..] == after;
  }

  /** The number parser on a segment. */
  lemma {:induction false} ParseBody(g: Seg, rest: string)
    requires SegOk(g) && Greedy(g, rest)
    ensures Body(g, rest) != [] && !IsSpace(Body(g, rest)[0])
    ensures ParseNum(Body(g, rest)) ==
      match SegNumber(g)
      case Err(e) => Err(e)
      case Ok(n) => Ok(Parsed(n, g.unit.suffix + rest))
  {
    LexBody(g, rest);
    BodyStarts(g, rest);
    hide Body;
    hide SegOk;
    hide Lex;
    hide Val;
    var after := g.unit.suffix + rest;
    ConvertSame(g, ExpPart(g) + after);
    if g.exp.Some? {
      var c := Convert(Lexed(g.whole, g.dot, g.frac, []));
      if c.Ok? {
        ParseExponent(c.value, g, after);
      }
    } else {
      assert ExpPart(g) + after == after;
    }
  }

  lemma {:induction false} BodyStarts(g: Seg, rest: string)
    requires SegOk(g)
    ensures Body(g, rest) != [] && !IsSpace(Body(g, rest)[0])
    ensures AllDigits(g.whole) && AllDigits(g.frac) && (g.exp.Some? ==> ExpOk(g.exp.value))
  {
  }

  lemma {:induction false} ConvertSame(g: Seg, tail: string)
    requires AllDigits(g.whole) && AllDigits(g.frac)
    ensures Convert(Lexed(g.whole, g.dot, g.frac, tail)) == Convert(Lexed(g.whole, g.dot, g.frac, []))
  {
  }

  lemma {:induction false} ParseExponent(n: Number, g: Seg, after: string)
    requires g.exp.Some? && ExpOk(g.exp.value) && !Starts(after, IsDigit)
    ensures StartsExponent(ExpPart(g) + after)
    ensures Exponent(n, (ExpPart(g) + after)[1..]) ==
      if Val(g.exp.value.digits) > I32_MAX then Err(InvalidInput)
      else match Shift(n, ExpOf(g)) case Err(e) => Err(e) case Ok(m) => Ok(Parsed(m, after))
  {
    hide LexExp;
    hide Shift;
    hide Val;
    var x := g.exp.value;
    var s := x.sign + x.digits + after;
    LexExpText(x, after);
    assert (ExpPart(g) + after)[1..] == s;
    assert ExpVal(LexExp(s)) == if Val(x.digits) > I32_MAX then Err(InvalidInput) else Ok(ExpOf(g));
  }

  lemma {:induction false} TrimGap(gap: string, t: string)
    requires AllSpace(gap) && (t == [] || !IsSpace(t[0]))
    ensures TrimStart(gap + t) == t
  {
    if gap == [] {
      assert gap + t == t;
    } else {
      assert (gap + t)[1..] == gap[1..] + t;
      TrimGap(gap[1..], t);
    }
  }

  lemma {:induction false} TrimSplits(s: string) returns (gap: string)
    ensures AllSpace(gap) && s == gap + TrimStart(s)
  {
    if s != [] && IsSpace(s[0]) {
      var g := TrimSplits(s[1..]);
      gap := [s[0]] + g;
    } else {
      gap := [];
    }
  }

  lemma {:induction false} SegmentsStep(s: string, g: Seg, rest: string, total: Duration)
    requires IsSegment(s, g, rest)
    ensures TrimStart(s) != []
    ensures Segments(s, total) ==
      match SegNumber(g)
      case Err(e) => Err(e)
      case Ok(n) => Segments(rest, AddSegment(total, n, g.unit))
  {
    hide SegNumber;
    hide ParseNum;
    hide UnitOf;
    hide AddSegment;
    ParseBody(g, rest);
    TrimGap(g.gap, Body(g, rest));
    assert (g.unit.suffix + rest)[|g.unit.suffix|..] == rest;
    assert TrimStart(s) == Body(g, rest);
    hide Body;
  }

  // ---------------------------------------------------------------------
  // Acceptance and value.
  // ---------------------------------------------------------------------

  /** The segment's number is representable. */
  ghost predicate Fits(g: Seg) {
    SegOk(g) && SegNumber(g).Ok?
  }

  /** Without an exponent this only takes both digit strings to be u64 numerals. */
  lemma {:induction false} FitsPlain(g: Seg)
    requires SegOk(g) && g.exp.None?
    ensures Fits(g) <==> Val(g.whole) <= U64_MAX && Val(g.frac) <= U64_MAX
  {
  }

  /** With an exponent its digits must read at most twenty, and the shifted parts must
      fit. */
  lemma {:induction false} FitsExponent(g: Seg)
    requires SegOk(g) && g.exp.Some?
    ensures Fits(g) <==>
      && Val(g.whole) <= U64_MAX && Val(g.frac) <= U64_MAX && Val(g.exp.value.digits) <= 20
      && Shift(Mantissa(g), ExpOf(g)).Ok?
  {
    if Val(g.whole) <= U64_MAX && Val(g.frac) <= U64_MAX {
      FracScaled(g);
      if |g.frac| > U32_MAX {
        PowBig(U32_MAX);
      }
      ShiftOkIff(Mantissa(g), ExpOf(g));
    }
    hide Val;
    hide Shift;
    hide Pow10;
  }

  /** Where a number is refused: a fraction that does not fit at its first digit, a
      missing number at the start, and the rest without a position. */
  lemma {:induction false} NumberErrors(whole: string, dot: bool, frac: string, tail: string)
    requires AllDigits(whole) && AllDigits(frac) && (!dot ==> frac == [])
    requires !Starts(tail, IsDigit) && (!dot ==> tail == [] || tail[0] != '.')
    ensures var s := whole + (if dot then ['.'] + frac else []) + tail;
      if s == [] then ParseNum(s) == Err(InvalidInput)
      else if Val(frac) > 0xFFFF_FFFF_FFFF_FFFF then ParseNum(s) == Err(Syntax(|whole| + 1))
      else if whole == [] && frac == [] then ParseNum(s) == Err(Syntax(0))
      else if Val(whole) > 0xFFFF_FFFF_FFFF_FFFF then ParseNum(s) == Err(InvalidInput)
      else if !StartsExponent(tail) then
        ParseNum(s) == Ok(Parsed(Number(Val(whole), if |frac| > 0xFFFF_FFFF then 0xFFFF_FFFF else |frac|, Val(frac)), tail))
      else ParseNum(s).Ok? || ParseNum(s) == Err(InvalidInput)
  {
    hide Lex;
    hide Val;
    hide LexExp;
    if dot {
      LexDot(whole, frac, tail);
    } else {
      LexPlain(whole, tail);
      assert whole + [] + tail == whole + tail;
    }
  }

  ghost predicate AllFit(segs: seq<Seg>) {
    forall i :: 0 <= i < |segs| ==> Fits(segs[i])
  }

  ghost predicate AllSound(segs: seq<Seg>) {
    forall i :: 0 <= i < |segs| ==> SegOk(segs[i]) && Sound(segs[i])
  }

  ghost function ExactSum(segs: seq<Seg>): nat {
    if segs == [] then 0 else (if SegOk(segs[0]) then ExactOf(segs[0]) else 0) + ExactSum(segs[1..])
  }

  ghost function ExactOf(g: Seg): nat
    requires SegOk(g)
  {
    FracScaled(g);
    Exact(g)
  }

  lemma {:induction false} UnitBound(s: string)
    ensures 0 < UnitOf(s).nanos <= NANOS_PER_WEEK
  {
    UnitBoundFrom(UNITS, s);
  }

  lemma {:induction false} UnitBoundFrom(units: seq<Unit>, s: string)
    requires forall i :: 0 <= i < |units| ==> 0 < units[i].nanos <= NANOS_PER_WEEK
    ensures 0 < FirstUnit(units, s).nanos <= NANOS_PER_WEEK
  {
    if units != [] {
      UnitBoundFrom(units[1..], s);
    }
  }

  lemma {:induction false} AddExact(total: Duration, g: Seg, rest: string)
    requires IsDuration(total) && Fits(g) && Sound(g) && Greedy(g, rest)
    ensures var next := AddSegment(total, SegNumber(g).value, g.unit);
      IsDuration(next) && Nanos(next) == Cap(Nanos(total) + ExactOf(g))
  {
    UnitBound(g.unit.suffix + rest);
    SegmentExactIff(g);
    hide MultiplyToNanos;
    hide Exact;
    hide SegNumber;
    NanosToDurationCaps(ExactOf(g));
    SaturatingAddCaps(total, NanosToDuration(ExactOf(g)));
  }

  lemma {:induction false} CapAgain(a: nat, b: nat)
    ensures Cap(Cap(a) + b) == Cap(a + b)
  {
  }

  lemma {:induction false} NextStays(total: Duration, n: Number, u: Unit)
    requires IsDuration(total)
    ensures IsDuration(AddSegment(total, n, u))
  {
    NanosToDurationCaps(MultiplyToNanos(n, u.nanos));
    SaturatingAddCaps(total, NanosToDuration(MultiplyToNanos(n, u.nanos)));
  }

  /** A text made of segments is accepted if and only if all their numbers fit, and
      then its value is the sum of the exact values of the segments, capped at the
      longest duration. */
  lemma {:induction false} SegmentsExact(s: string, segs: seq<Seg>, total: Duration)
    requires Decomposes(s, segs) && IsDuration(total)
    ensures Worth(Segments(s, total), total, segs)
    decreases |segs|
  {
    if segs == [] {
      TrimGap(s, []);
      assert s + [] == s;
    } else {
      var g := segs[0];
      var rest :| IsSegment(s, g, rest) && Decomposes(rest, segs[1..]);
      SegmentsStep(s, g, rest, total);
      hide Segments;
      hide Decomposes;
      if Fits(g) {
        var next := AddSegment(total, SegNumber(g).value, g.unit);
        hide AddSegment;
        hide SegNumber;
        NextStays(total, SegNumber(g).value, g.unit);
        SegmentsExact(rest, segs[1..], next);
        WorthStep(total, segs, rest, Segments(s, total));
      } else {
        hide SegNumber;
        assert !Fits(segs[0]);
      }
    }
  }

  /** What a result is worth, in terms of the segments. */
  ghost predicate Worth(r: Result<Duration>, total: Duration, segs: seq<Seg>) {
    && (r.Ok? <==> AllFit(segs))
    && (AllFit(segs) && r.Ok? ==> IsDuration(r.value))
    && (AllFit(segs) && AllSound(segs) && r.Ok? ==> Nanos(r.value) == Cap(Nanos(total) + ExactSum(segs)))
  }

  lemma {:induction false} WorthStep(total: Duration, segs: seq<Seg>, rest: string, r: Result<Duration>)
    requires IsDuration(total) && segs != [] && Fits(segs[0]) && Greedy(segs[0], rest)
    requires Worth(r, AddSegment(total, SegNumber(segs[0]).value, segs[0].unit), segs[1..])
    ensures Worth(r, total, segs)
  {
    var g := segs[0];
    hide Fits;
    assert AllFit(segs) <==> AllFit(segs[1..]);
    hide AllFit;
    if AllSound(segs) {
      assert SegOk(segs[0]) && Sound(segs[0]);
      AddExact(total, g, rest);
      assert AllSound(segs[1..]);
      hide AllSound;
      hide Nanos;
      hide Sound;
      hide SegOk;
      hide AddSegment;
      CapAgain(Nanos(total) + ExactOf(g), ExactSum(segs[1..]));
    }
  }

  /** Whatever is accepted is made of segments. */
  lemma {:induction false} AcceptedDecomposes(s: string, total: Duration) returns (segs: seq<Seg>)
    requires Segments(s, total).Ok?
    ensures Decomposes(s, segs)
    ensures segs == [] <==> TrimStart(s) == []
    decreases |s|
  {
    var gap := TrimSplits(s);
    var t := TrimStart(s);
    if t == [] {
      assert s == gap;
      segs := [];
    } else {
      var p, u, rest := SegmentsUnfold(s, total);
      hide Segments;
      hide TrimStart;
      var g := SegmentAt(gap, t, u, rest);
      var more := AcceptedDecomposes(rest, AddSegment(total, p.number, u));
      segs := [g] + more;
      DecomposesCons(s, g, rest, more);
    }
  }

  lemma {:induction false} SegmentsUnfold(s: string, total: Duration) returns (p: Parsed, u: Unit, rest: string)
    requires Segments(s, total).Ok? && TrimStart(s) != []
    ensures ParseNum(TrimStart(s)) == Ok(p) && u == UnitOf(p.rest) && rest == p.rest[|u.suffix|..]
    ensures |rest| < |s| && Segments(rest, AddSegment(total, p.number, u)).Ok?
  {
    hide ParseNum;
    hide UnitOf;
    hide AddSegment;
    hide TrimStart;
    p := ParseNum(TrimStart(s)).value;
    u := UnitOf(p.rest);
    rest := p.rest[|u.suffix|..];
  }

  lemma {:induction false} DecomposesCons(s: string, g: Seg, rest: string, more: seq<Seg>)
    requires IsSegment(s, g, rest) && Decomposes(rest, more)
    ensures Decomposes(s, [g] + more)
  {
    hide IsSegment;
    assert ([g] + more)[1..] == more;
  }

  lemma {:induction false} SegmentAt(gap: string, t: string, u: Unit, rest: string) returns (g: Seg)
    requires AllSpace(gap) && ParseNum(t).Ok?
    requires u == UnitOf(ParseNum(t).value.rest) && rest == ParseNum(t).value.rest[|u.suffix|..]
    ensures IsSegment(gap + t, g, rest)
  {
    hide UnitOf;
    hide AllSpace;
    hide ParseNum;
    hide Lex;
    hide AllDigits;
    var l, after := Lex(t), ParseNum(t).value.rest;
    var exp := ExponentAt(t);
    g := Seg(gap, l.whole, l.dot, l.frac, exp, u);
    assert after == u.suffix + rest;
    assert t == Body(g, rest) by {
      BodyIs(g, l, after);
    }
    hide Body;
  }

  lemma {:induction false} BodyIs(g: Seg, l: Lexed, after: string)
    requires g.whole == l.whole && g.frac == l.frac && g.dot == l.dot && l.rest == ExpPart(g) + after
    ensures g.whole + DotText(g) + (ExpPart(g) + after) == l.whole + (if l.dot then ['.'] + l.frac else []) + l.rest
  {
  }

  /** The exponent in front of what the number parser leaves over. */
  lemma {:induction false} ExponentAt(t: string) returns (exp: Option<ExpText>)
    requires ParseNum(t).Ok?
    ensures Lex(t).whole != [] || Lex(t).frac != []
    ensures var l, after := Lex(t), ParseNum(t).value.rest;
      && !Starts(after, IsDigit) && (exp.Some? ==> ExpOk(exp.value))
      && (exp.None? ==> !StartsExponent(after))
      && l.rest == (match exp case None => [] case Some(x) => [x.mark] + x.sign + x.digits) + after
  {
    hide Lex;
    hide LexExp;
    hide Val;
    hide Shift;
    var l := Lex(t);
    if StartsExponent(l.rest) {
      var x := LexExp(l.rest[1..]);
      exp := Some(ExpText(l.rest[0], x.sign, x.digits));
      assert l.rest == [l.rest[0]] + (x.sign + x.digits + x.rest);
      assert l.rest == [l.rest[0]] + x.sign + x.digits + x.rest;
    } else {
      exp := None;
      assert [] + l.rest == l.rest;
    }
  }

  /** The parser accepts exactly the non-empty segment lists whose numbers fit. */
  lemma {:induction false} CompoundAccepts(s: string)
    ensures Compound(s).Ok? <==> exists segs :: segs != [] && Decomposes(s, segs) && AllFit(segs)
  {
    if Compound(s).Ok? {
      var segs := AcceptedDecomposes(s, ZERO);
      SegmentsExact(s, segs, ZERO);
    }
    forall segs | segs != [] && Decomposes(s, segs) && AllFit(segs)
      ensures Compound(s).Ok?
    {
      SegmentsExact(s, segs, ZERO);
      var rest :| IsSegment(s, segs[0], rest) && Decomposes(rest, segs[1..]);
      SegmentsStep(s, segs[0], rest, ZERO);
    }
  }

  /** Exact parsing: an accepted text is worth the sum of its segments, each rounded
      down to nanoseconds, capped at the longest duration. */
  lemma {:induction false} CompoundExact(s: string, segs: seq<Seg>)
    requires Compound(s).Ok? && Decomposes(s, segs) && AllSound(segs)
    ensures IsDuration(Compound(s).value) && Nanos(Compound(s).value) == Cap(ExactSum(segs))
  {
    SegmentsExact(s, segs, ZERO);
    hide Segments;
    hide Decomposes;
    hide AllSound;
    hide ExactSum;
    assert Segments(s, ZERO) == Compound(s);
  }

  /** The text between white space and after an optional plus sign. */
  function Core(s: string): string {
    var t := Trim(s);
    if t != [] && t[0] == '+' then t[1..] else t
  }

  predicate IsInfinity(t: string) {
    IsWord(t, "inf") || IsWord(t, "infinity")
  }

  /** The whole parser accepts a text exactly if, between white space, after an
      optional plus sign and without a minus sign, it is an infinity literal, worth
      the longest duration, or a list of segments that fit. */
  lemma {:induction false} ParseAccepts(s: string)
    ensures Parse(s).Ok? <==>
      && Trim(s) != [] && Trim(s)[0] != '-'
      && (IsInfinity(Core(s)) || exists segs :: segs != [] && Decomposes(Core(s), segs) && AllFit(segs))
    ensures Parse(s).Ok? && IsInfinity(Core(s)) ==> Parse(s).value == MAX
  {
    CompoundAccepts(Core(s));
    CompoundEmpty();
    hide Compound;
    hide Decomposes;
    hide AllFit;
    hide Trim;
    hide IsWord;
  }

  lemma {:induction false} CompoundEmpty()
    ensures Compound([]).Err? && !IsWord([], "inf") && !IsWord([], "infinity")
  {
  }

  /** And its value is the capped exact sum of the segments. */
  lemma {:induction false} ParseExact(s: string, segs: seq<Seg>)
    requires Parse(s).Ok? && !IsInfinity(Core(s)) && Decomposes(Core(s), segs) && AllSound(segs)
    ensures IsDuration(Parse(s).value) && Nanos(Parse(s).value) == Cap(ExactSum(segs))
  {
    var t := Core(s);
    assert Parse(s) == Compound(t);
    CompoundExact(t, segs);
  }
}
