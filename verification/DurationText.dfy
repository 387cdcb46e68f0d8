/** Parsing and printing of human-readable durations. */
module DurationText {
  import opened Prelude
  import opened Decimal
  import opened DurationNumber

  const I32_MAX: nat := 0x7FFF_FFFF

  // ---------------------------------------------------------------------
  // Durations
  // ---------------------------------------------------------------------

  datatype Duration = Duration(secs: nat, nanos: nat)

  const ZERO: Duration := Duration(0, 0)
  const MAX: Duration := Duration(U64_MAX, 999_999_999)

  predicate IsDuration(d: Duration) {
    d.secs <= U64_MAX && d.nanos < NANOS_PER_SECOND
  }

  function Nanos(d: Duration): nat {
    d.secs * NANOS_PER_SECOND + d.nanos
  }

  function Cap(nanos: nat): nat {
    if nanos > Nanos(MAX) then Nanos(MAX) else nanos
  }

  function NanosToDuration(nanos: nat): Duration {
    if nanos / NANOS_PER_SECOND > U64_MAX then MAX
    else Duration(nanos / NANOS_PER_SECOND, nanos % NANOS_PER_SECOND)
  }

  /** `Duration::saturating_add`. */
  function SaturatingAdd(a: Duration, b: Duration): Duration {
    var nanos := a.nanos + b.nanos;
    var secs := a.secs + b.secs + if nanos >= NANOS_PER_SECOND then 1 else 0;
    if secs > U64_MAX then MAX
    else Duration(secs, if nanos >= NANOS_PER_SECOND then nanos - NANOS_PER_SECOND else nanos)
  }

  lemma {:induction false} NanosToDurationCaps(nanos: nat)
    ensures IsDuration(NanosToDuration(nanos)) && Nanos(NanosToDuration(nanos)) == Cap(nanos)
  {
  }

  lemma {:induction false} SaturatingAddCaps(a: Duration, b: Duration)
    requires IsDuration(a) && IsDuration(b)
    ensures IsDuration(SaturatingAdd(a, b)) && Nanos(SaturatingAdd(a, b)) == Cap(Nanos(a) + Nanos(b))
  {
  }

  lemma {:induction false} NanosInjective(a: Duration, b: Duration)
    requires IsDuration(a) && IsDuration(b) && Nanos(a) == Nanos(b)
    ensures a == b
  {
  }

  // ---------------------------------------------------------------------
  // Lexical pieces
  // ---------------------------------------------------------------------

  predicate IsSpace(c: char) {
    c == ' ' || '\t' <= c <= '\r'
  }

  function TrimStart(s: string): (r: string)
    ensures |r| <= |s| && (r != [] ==> !IsSpace(r[0]))
  {
    if s != [] && IsSpace(s[0]) then TrimStart(s[1..]) else s
  }

  function TrimEnd(s: string): (r: string)
    ensures |r| <= |s|
  {
    if s != [] && IsSpace(s[|s| - 1]) then TrimEnd(s[..|s| - 1]) else s
  }

  function Trim(s: string): string {
    TrimEnd(TrimStart(s))
  }

  /** Integer digits, optional point, fraction digits, and what follows. */
  datatype Lexed = Lexed(whole: string, dot: bool, frac: string, rest: string)

  function Lex(s: string): (l: Lexed)
    ensures AllDigits(l.whole) && AllDigits(l.frac) && (!l.dot ==> l.frac == [])
    ensures s == l.whole + (if l.dot then ['.'] + l.frac else []) + l.rest
    ensures l.rest != [] ==> !IsDigit(l.rest[0]) && (!l.dot ==> l.rest[0] != '.')
  {
    var i := Run(s);
    if i < |s| && s[i] == '.' then
      var t := s[i + 1..];
      var f := Run(t);
      assert s == s[..i] + (['.'] + t[..f]) + t[f..];
      Lexed(s[..i], true, t[..f], t[f..])
    else
      Lexed(s[..i], false, [], s[i..])
  }

  function Convert(l: Lexed): Result<Number>
    requires AllDigits(l.whole) && AllDigits(l.frac)
  {
    if Val(l.frac) > U64_MAX then Err(Syntax(|l.whole| + 1))
    else if l.whole == [] && l.frac == [] then Err(Syntax(0))
    else if Val(l.whole) > U64_MAX then Err(InvalidInput)
    else Ok(Number(Val(l.whole), if |l.frac| > U32_MAX then U32_MAX else |l.frac|, Val(l.frac)))
  }

  /** Optional sign and digits of an exponent, and what follows. */
  datatype ExpLexed = ExpLexed(sign: string, digits: string, rest: string)

  function LexExp(s: string): (l: ExpLexed)
    ensures AllDigits(l.digits) && s == l.sign + l.digits + l.rest && (l.sign == "" || l.sign == "-" || l.sign == "+")
    ensures l.rest != [] ==> !IsDigit(l.rest[0])
  {
    var k := if s != [] && (s[0] == '-' || s[0] == '+') then 1 else 0;
    var n := Run(s[k..]);
    assert s == s[..k] + s[k..][..n] + s[k..][n..];
    ExpLexed(s[..k], s[k..][..n], s[k..][n..])
  }

  function ExpVal(l: ExpLexed): Result<int>
    requires AllDigits(l.digits)
  {
    if l.digits == [] || Val(l.digits) > I32_MAX then Err(InvalidInput)
    else Ok(if l.sign == "-" then 0 - Val(l.digits) else Val(l.digits))
  }

  datatype Parsed = Parsed(number: Number, rest: string)

  /** The number after an exponent marker has been read. */
  function Exponent(n: Number, s: string): (r: Result<Parsed>)
    ensures r.Ok? ==> |r.value.rest| <= |s|
  {
    var l := LexExp(s);
    match ExpVal(l)
    case Err(e) => Err(e)
    case Ok(exp) =>
      match Shift(n, exp)
      case Err(e) => Err(e)
      case Ok(m) => Ok(Parsed(m, l.rest))
  }

  predicate StartsExponent(s: string) {
    s != [] && (s[0] == 'e' || s[0] == 'E')
  }

  function ParseNum(s: string): (r: Result<Parsed>)
    ensures r.Ok? ==> |r.value.rest| < |s|
  {
    if s == [] then Err(InvalidInput)
    else
      var l := Lex(s);
      match Convert(l)
      case Err(e) => Err(e)
      case Ok(n) => if StartsExponent(l.rest) then Exponent(n, l.rest[1..]) else Ok(Parsed(n, l.rest))
  }

  datatype Unit = Unit(suffix: string, nanos: nat)

  /** In the order in which they are tried. */
  const UNITS: seq<Unit> := [
    Unit("ns", 1),
    Unit("us", 1_000),
    Unit("Ms", 1_000),
    Unit("ms", 1_000_000),
    Unit("s", NANOS_PER_SECOND),
    Unit("m", 60 * NANOS_PER_SECOND),
    Unit("h", 3600 * NANOS_PER_SECOND),
    Unit("d", 86_400 * NANOS_PER_SECOND),
    Unit("w", NANOS_PER_WEEK)]

  const NO_UNIT: Unit := Unit("", NANOS_PER_SECOND)

  predicate IsPrefix(p: string, s: string) {
    |p| <= |s| && s[..|p|] == p
  }

  function FirstUnit(units: seq<Unit>, s: string): (u: Unit)
    ensures IsPrefix(u.suffix, s)
  {
    if units == [] then NO_UNIT
    else if IsPrefix(units[0].suffix, s) then units[0] else FirstUnit(units[1..], s)
  }

  function UnitOf(s: string): (u: Unit)
    ensures IsPrefix(u.suffix, s)
  {
    FirstUnit(UNITS, s)
  }

  // ---------------------------------------------------------------------
  // The parser
  // ---------------------------------------------------------------------

  /** One number with its unit, added to the total. */
  function AddSegment(total: Duration, n: Number, unit: Unit): Duration {
    SaturatingAdd(total, NanosToDuration(MultiplyToNanos(n, unit.nanos)))
  }

  function Segments(s: string, total: Duration): Result<Duration>
    decreases |s|
  {
    var t := TrimStart(s);
    if t == [] then Ok(total)
    else
      match ParseNum(t)
      case Err(e) => Err(e)
      case Ok(p) =>
        var u := UnitOf(p.rest);
        Segments(p.rest[|u.suffix|..], AddSegment(total, p.number, u))
  }

  function Compound(s: string): Result<Duration> {
    if TrimStart(s) == [] then Err(InvalidInput) else Segments(s, ZERO)
  }

  function Lower(c: char): char {
    if 'A' <= c <= 'Z' then 'a' + (c - 'A') else c
  }

  /** `eq_ignore_ascii_case` with a lower-case word. */
  predicate IsWord(s: string, word: string) {
    |s| == |word| && forall i :: 0 <= i < |s| ==> Lower(s[i]) == word[i]
  }

  function Unsigned(s: string): Result<Duration> {
    if s == [] then Err(InvalidInput)
    else if IsWord(s, "inf") || IsWord(s, "infinity") then Ok(MAX)
    else Compound(s)
  }

  function Parse(s: string): Result<Duration> {
    var t := Trim(s);
    if t == [] then Err(InvalidInput)
    else if t[0] == '+' then Unsigned(t[1..])
    else if t[0] == '-' then Err(InvalidInput)
    else Unsigned(t)
  }

  /** `apply_exponent`. */
  method ApplyExponent(n: Number, s: string) returns (r: Result<Parsed>)
    ensures r == Exponent(n, s)
  {
    hide Val;
    hide Run;
    hide Shift;
    var pos, negative := 0, false;
    if pos < |s| && s[pos] == '-' {
      pos, negative := 1, true;
    } else if pos < |s| && s[pos] == '+' {
      pos := 1;
    }
    var end := ScanDigits(s, pos);
    assert s[pos..][..end - pos] == s[pos..end] && s[pos..][end - pos..] == s[end..];
    if end == pos || Val(s[pos..end]) > I32_MAX {
      return Err(InvalidInput);
    }
    var m := Shift(n, if negative then 0 - Val(s[pos..end]) else Val(s[pos..end]));
    match m
    case Err(e) => return Err(e);
    case Ok(v) => return Ok(Parsed(v, s[end..]));
  }

  /** `parse_number`. */
  method ParseNumber(s: string) returns (r: Result<Parsed>)
    ensures r == ParseNum(s)
  {
    hide Val;
    hide Run;
    hide Convert;
    hide Exponent;
    if s == [] {
      return Err(InvalidInput);
    }
    var intEnd := ScanDigits(s, 0);
    assert s[0..] == s;
    var pos, dot, frac := intEnd, false, [];
    if pos < |s| && s[pos] == '.' {
      var end := ScanDigits(s, pos + 1);
      assert s[pos + 1..][..end - pos - 1] == s[pos + 1..end] && s[pos + 1..][end - pos - 1..] == s[end..];
      dot, frac, pos := true, s[pos + 1..end], end;
    }
    assert Lex(s) == Lexed(s[..intEnd], dot, frac, s[pos..]);
    var n := Convert(Lexed(s[..intEnd], dot, frac, s[pos..]));
    if n.Err? {
      return Err(n.error);
    }
    if StartsExponent(s[pos..]) {
      r := ApplyExponent(n.value, s[pos..][1..]);
    } else {
      r := Ok(Parsed(n.value, s[pos..]));
    }
  }

  /** `parse_compound_duration`. */
  method ParseCompound(s: string) returns (r: Result<Duration>)
    ensures r == Compound(s)
  {
    var total, remaining, parsedAny := ZERO, s, false;
    while remaining != []
      invariant parsedAny || remaining == s
      invariant !parsedAny ==> total == ZERO
      invariant parsedAny ==> TrimStart(s) != []
      invariant Segments(remaining, total) == Segments(s, ZERO)
      decreases |remaining|
    {
      var text := TrimStart(remaining);
      if text == [] {
        remaining := [];
        break;
      }
      var p := ParseNumber(text);
      if p.Err? {
        return Err(p.error);
      }
      var u := UnitOf(p.value.rest);
      total := AddSegment(total, p.value.number, u);
      parsedAny := true;
      remaining := p.value.rest[|u.suffix|..];
    }
    if !parsedAny {
      return Err(InvalidInput);
    }
    return Ok(total);
  }

  /** `parse_duration`. */
  method ParseDuration(s: string) returns (r: Result<Duration>)
    ensures r == Parse(s)
  {
    var t := Trim(s);
    if t == [] || t[0] == '-' {
      return Err(InvalidInput);
    }
    if t[0] == '+' {
      t := t[1..];
    }
    if t == [] {
      return Err(InvalidInput);
    }
    if IsWord(t, "inf") || IsWord(t, "infinity") {
      return Ok(MAX);
    }
    r := ParseCompound(t);
  }
}
