/** Printing durations, and the round trip through the parser. */
module DurationFormat {
  import opened Prelude
  import opened Decimal
  import opened DurationNumber
  import opened DurationExact
  import opened DurationText
  import opened DurationGrammar
  import opened DurationLaws

  /** A count of one unit; units are named by their place in the table. */
  datatype Part = Part(count: nat, unit: nat)

  ghost predicate PartOk(p: Part) {
    p.count <= U64_MAX && p.unit < |UNITS|
  }

  function PartText(p: Part): string
    requires p.unit < |UNITS|
  {
    Dec(p.count) + UNITS[p.unit].suffix
  }

  function Join(ss: seq<string>): string {
    if ss == [] then [] else if |ss| == 1 then ss[0] else ss[0] + [' '] + Join(ss[1..])
  }

  /** Weeks down to nanoseconds, in mixed radix. */
  function Fields(d: Duration): seq<Part> {
    [Part(d.secs / 604_800, 8),
     Part(d.secs % 604_800 / 86_400, 7),
     Part(d.secs % 604_800 % 86_400 / 3600, 6),
     Part(d.secs % 604_800 % 86_400 % 3600 / 60, 5),
     Part(d.secs % 604_800 % 86_400 % 3600 % 60, 4),
     Part(d.nanos / 1_000_000, 3),
     Part(d.nanos % 1_000_000 / 1_000, 1),
     Part(d.nanos % 1_000_000 % 1_000, 0)]
  }

  function NonZero(ps: seq<Part>): seq<Part> {
    if ps == [] then [] else (if ps[0].count == 0 then [] else [ps[0]]) + NonZero(ps[1..])
  }

  function Shown(d: Duration): seq<Part> {
    if d == ZERO then [Part(0, 4)] else NonZero(Fields(d))
  }

  ghost predicate PartsOk(ps: seq<Part>) {
    forall i :: 0 <= i < |ps| ==> PartOk(ps[i])
  }

  function Texts(ps: seq<Part>): (ss: seq<string>)
    requires forall i :: 0 <= i < |ps| ==> ps[i].unit < |UNITS|
    ensures |ss| == |ps|
  {
    if ps == [] then [] else [PartText(ps[0])] + Texts(ps[1..])
  }

  lemma {:induction false} NonZeroOk(ps: seq<Part>)
    requires PartsOk(ps)
    ensures PartsOk(NonZero(ps))
  {
    if ps != [] {
      NonZeroOk(ps[1..]);
    }
  }

  lemma {:induction false} ShownOk(d: Duration)
    requires IsDuration(d)
    ensures PartsOk(Shown(d))
  {
    FieldsOk(d);
    NonZeroOk(Fields(d));
  }

  lemma {:induction false} FieldsOk(d: Duration)
    requires IsDuration(d)
    ensures PartsOk(Fields(d))
  {
  }

  /** The text `format_duration` prints. */
  function Format(d: Duration): string
    requires IsDuration(d)
  {
    ShownOk(d);
    Join(Texts(Shown(d)))
  }

  // ---------------------------------------------------------------------
  // The printer
  // ---------------------------------------------------------------------

  /** `if n > 0 { parts.push(..) }`. */
  function Emit(parts: seq<string>, count: nat, unit: nat): seq<string>
    requires unit < |UNITS|
  {
    if count > 0 then parts + [Dec(count) + UNITS[unit].suffix] else parts
  }

  function EmitAll(parts: seq<string>, ps: seq<Part>): seq<string>
    requires PartsOk(ps)
    decreases |ps|
  {
    if ps == [] then parts else EmitAll(Emit(parts, ps[0].count, ps[0].unit), ps[1..])
  }

  lemma {:induction false} EmitIsNonZero(parts: seq<string>, ps: seq<Part>)
    requires PartsOk(ps)
    ensures PartsOk(NonZero(ps)) && EmitAll(parts, ps) == parts + Texts(NonZero(ps))
    decreases |ps|
  {
    NonZeroOk(ps);
    if ps != [] {
      EmitIsNonZero(Emit(parts, ps[0].count, ps[0].unit), ps[1..]);
      hide EmitAll;
      assert EmitAll(parts, ps) == EmitAll(Emit(parts, ps[0].count, ps[0].unit), ps[1..]) by {
        EmitFirst(parts, ps);
      }
      if ps[0].count > 0 {
        assert NonZero(ps)[1..] == NonZero(ps[1..]);
        assert Texts(NonZero(ps)) == [PartText(ps[0])] + Texts(NonZero(ps[1..]));
        hide Texts;
        hide NonZero;
      } else {
        assert NonZero(ps) == NonZero(ps[1..]);
      }
    }
  }

  lemma {:induction false} EmitFirst(parts: seq<string>, ps: seq<Part>)
    requires PartsOk(ps) && ps != []
    ensures EmitAll(parts, ps) == EmitAll(Emit(parts, ps[0].count, ps[0].unit), ps[1..])
  {
    hide Emit;
  }

  lemma {:induction false} EmitStep(parts: seq<string>, ps: seq<Part>, i: nat)
    requires PartsOk(ps) && i < |ps|
    ensures EmitAll(parts, ps[i..]) == EmitAll(Emit(parts, ps[i].count, ps[i].unit), ps[i + 1..])
  {
    assert ps[i..][0] == ps[i] && ps[i..][1..] == ps[i + 1..];
  }

  /** `format_duration`. */
  method FormatDuration(d: Duration) returns (text: string)
    requires IsDuration(d)
    ensures text == Format(d)
  {
    if d == ZERO {
      ZeroText();
      return "0s";
    }
    var parts := Components(d);
    EmitIsNonZero([], Fields(d));
    assert [] + Texts(NonZero(Fields(d))) == Texts(NonZero(Fields(d)));
    text := Join(parts);
  }

  /** The body of the printer: seconds first, then what is below a second. */
  method Components(d: Duration) returns (parts: seq<string>)
    requires IsDuration(d)
    ensures PartsOk(Fields(d)) && parts == EmitAll([], Fields(d))
  {
    FieldsOk(d);
    hide PartsOk;
    hide EmitAll;
    ghost var ps := Fields(d);
    var secs, nanos := d.secs, d.nanos;
    assert |ps| == 8 && ps[0..] == ps && ps[8..] == [];
    parts, secs := Field([], secs, 604_800, 8, ps, 0);
    parts, secs := Field(parts, secs, 86_400, 7, ps, 1);
    parts, secs := Field(parts, secs, 3600, 6, ps, 2);
    parts, secs := Field(parts, secs, 60, 5, ps, 3);
    parts, secs := Field(parts, secs, 1, 4, ps, 4);
    parts, nanos := Field(parts, nanos, 1_000_000, 3, ps, 5);
    parts, nanos := Field(parts, nanos, 1_000, 1, ps, 6);
    parts, nanos := Field(parts, nanos, 1, 0, ps, 7);
    EmitNothing(parts);
  }

  /** One component: printed if positive, and then taken off what remains. */
  method Field(parts: seq<string>, remaining: nat, size: nat, unit: nat, ghost ps: seq<Part>, ghost i: nat)
    returns (parts': seq<string>, remaining': nat)
    requires 0 < size && unit < |UNITS|
    requires PartsOk(ps) && i < |ps| && ps[i] == Part(remaining / size, unit)
    ensures remaining' == remaining % size
    ensures PartsOk(ps[i..]) && PartsOk(ps[i + 1..]) && EmitAll(parts', ps[i + 1..]) == EmitAll(parts, ps[i..])
  {
    EmitStep(parts, ps, i);
    var count := remaining / size;
    parts', remaining' := Emit(parts, count, unit), remaining;
    if count > 0 {
      remaining' := remaining % size;
    } else {
      Remains(remaining, size);
    }
  }

  lemma {:induction false} Remains(x: nat, d: nat)
    requires 0 < d && x / d == 0
    ensures x % d == x
  {
  }

  lemma {:induction false} EmitNothing(parts: seq<string>)
    ensures PartsOk([]) && EmitAll(parts, []) == parts
  {
  }

  lemma {:induction false} ZeroText()
    ensures PartsOk(Shown(ZERO)) && Join(Texts(Shown(ZERO))) == "0s"
  {
    assert Texts([Part(0, 4)]) == [PartText(Part(0, 4))] + Texts([]);
    assert Dec(0) == "0";
  }

  // ---------------------------------------------------------------------
  // Printed texts are segment lists.
  // ---------------------------------------------------------------------

  function SegOf(p: Part, gap: string): Seg
    requires p.unit < |UNITS|
  {
    Seg(gap, Dec(p.count), false, [], None, UNITS[p.unit])
  }

  function SegsOf(ps: seq<Part>, gap: string): (segs: seq<Seg>)
    requires forall i :: 0 <= i < |ps| ==> ps[i].unit < |UNITS|
    ensures |segs| == |ps|
  {
    if ps == [] then [] else [SegOf(ps[0], gap)] + SegsOf(ps[1..], " ")
  }

  lemma {:induction false} FirstUnitIs(units: seq<Unit>, i: nat, s: string)
    requires i < |units| && IsPrefix(units[i].suffix, s)
    requires forall j :: 0 <= j < i ==> !IsPrefix(units[j].suffix, s)
    ensures FirstUnit(units, s) == units[i]
    decreases i
  {
    if i > 0 {
      assert !IsPrefix(units[0].suffix, s);
      FirstUnitIs(units[1..], i - 1, s);
    }
  }

  /** A printed unit is recognised: nothing earlier in the table matches. */
  lemma {:induction false} UnitFound(i: nat, rest: string)
    requires i < |UNITS| && (rest == [] || rest[0] == ' ')
    ensures UnitOf(UNITS[i].suffix + rest) == UNITS[i]
  {
    var s := UNITS[i].suffix + rest;
    assert s[..|UNITS[i].suffix|] == UNITS[i].suffix;
    forall j | 0 <= j < i
      ensures !IsPrefix(UNITS[j].suffix, s)
    {
      Unlike(i, j, rest);
    }
    FirstUnitIs(UNITS, i, s);
  }

  lemma {:induction false} Unlike(i: nat, j: nat, rest: string)
    requires j < i < |UNITS| && (rest == [] || rest[0] == ' ')
    ensures !IsPrefix(UNITS[j].suffix, UNITS[i].suffix + rest)
  {
    var p, s := UNITS[j].suffix, UNITS[i].suffix + rest;
    Differ(p, s);
  }

  lemma {:induction false} Differ(p: string, s: string)
    requires p != [] && s != []
    requires p[0] != s[0] || (|p| == 2 && (|s| < 2 || p[1] != s[1]))
    ensures !IsPrefix(p, s)
  {
  }

  lemma {:induction false} UnitLetter(i: nat)
    requires i < |UNITS|
    ensures UNITS[i].suffix != [] && 'A' <= UNITS[i].suffix[0] && UNITS[i].suffix[0] != 'e' && UNITS[i].suffix[0] != 'E'
    ensures !IsSpace(UNITS[i].suffix[|UNITS[i].suffix| - 1]) && UNITS[i].nanos <= NANOS_PER_WEEK
  {
  }

  lemma {:induction false} PartIsSegment(p: Part, gap: string, rest: string)
    requires PartOk(p) && AllSpace(gap) && (rest == [] || rest[0] == ' ')
    ensures IsSegment(gap + (PartText(p) + rest), SegOf(p, gap), rest)
  {
    UnitFound(p.unit, rest);
    UnitLetter(p.unit);
    hide UnitOf;
    var g := SegOf(p, gap);
    var u := g.unit.suffix;
    assert Body(g, rest) == g.whole + (u + rest) by {
      BodyPlain(g, rest);
    }
    assert PartText(p) + rest == g.whole + (u + rest);
  }

  lemma {:induction false} BodyPlain(g: Seg, rest: string)
    requires !g.dot && g.exp.None?
    ensures Body(g, rest) == g.whole + (g.unit.suffix + rest)
  {
    assert g.whole + [] == g.whole;
    assert [] + (g.unit.suffix + rest) == g.unit.suffix + rest;
  }

  lemma {:induction false} JoinDecomposes(ps: seq<Part>, gap: string)
    requires PartsOk(ps) && ps != [] && AllSpace(gap)
    ensures Decomposes(gap + Join(Texts(ps)), SegsOf(ps, gap))
    decreases |ps|
  {
    var rest := if |ps| == 1 then [] else [' '] + Join(Texts(ps[1..]));
    assert Join(Texts(ps)) == PartText(ps[0]) + rest;
    assert PartOk(ps[0]);
    PartIsSegment(ps[0], gap, rest);
    if |ps| > 1 {
      assert PartsOk(ps[1..]);
      JoinDecomposes(ps[1..], " ");
    }
    hide IsSegment;
    DecomposesCons(gap + Join(Texts(ps)), SegOf(ps[0], gap), rest, SegsOf(ps[1..], " "));
  }

  // ---------------------------------------------------------------------
  // Their values.
  // ---------------------------------------------------------------------

  function PartNanos(p: Part): nat
    requires p.unit < |UNITS|
  {
    p.count * UNITS[p.unit].nanos
  }

  function PartsNanos(ps: seq<Part>): nat
    requires forall i :: 0 <= i < |ps| ==> ps[i].unit < |UNITS|
  {
    if ps == [] then 0 else PartNanos(ps[0]) + PartsNanos(ps[1..])
  }

  lemma {:induction false} PartExact(p: Part, gap: string)
    requires PartOk(p) && AllSpace(gap)
    ensures SegOk(SegOf(p, gap)) && Fits(SegOf(p, gap)) && Sound(SegOf(p, gap)) && ExactOf(SegOf(p, gap)) == PartNanos(p)
  {
    var g := SegOf(p, gap);
    ValDec(p.count);
    assert Val([]) == 0;
    hide Val;
    FitsPlain(g);
    hide Fits;
    PartValue(p, gap);
  }

  lemma {:induction false} PartValue(p: Part, gap: string)
    requires PartOk(p) && SegOk(SegOf(p, gap))
    ensures ExactOf(SegOf(p, gap)) == PartNanos(p)
  {
    var g := SegOf(p, gap);
    ValDec(p.count);
    assert g.whole + g.frac == g.whole;
    FracScaled(g);
    PlainValue(g);
    PowZero();
    hide Pow10;
    hide Exact;
    hide Val;
    WholeQuot(p.count, g.unit.nanos);
  }

  lemma {:induction false} WholeQuot(n: nat, u: nat)
    ensures Quot(n * 1 * u, 1 * 1) == n * u
  {
  }

  lemma {:induction false} PartsExact(ps: seq<Part>, gap: string)
    requires PartsOk(ps) && AllSpace(gap)
    ensures AllFit(SegsOf(ps, gap)) && AllSound(SegsOf(ps, gap)) && ExactSum(SegsOf(ps, gap)) == PartsNanos(ps)
    decreases |ps|
  {
    if ps != [] {
      assert PartOk(ps[0]);
      PartExact(ps[0], gap);
      assert PartsOk(ps[1..]);
      PartsExact(ps[1..], " ");
      hide PartsOk;
      hide Fits;
      hide Sound;
      hide SegOk;
      hide PartNanos;
      hide SegOf;
      assert SegsOf(ps, gap) == [SegOf(ps[0], gap)] + SegsOf(ps[1..], " ");
      SumsCons(SegOf(ps[0], gap), SegsOf(ps[1..], " "));
    }
  }

  lemma {:induction false} SumsCons(g: Seg, segs: seq<Seg>)
    requires SegOk(g) && Fits(g) && Sound(g) && AllFit(segs) && AllSound(segs)
    ensures AllFit([g] + segs) && AllSound([g] + segs) && ExactSum([g] + segs) == ExactOf(g) + ExactSum(segs)
  {
    hide Fits;
    hide Sound;
    hide SegOk;
    assert ([g] + segs)[1..] == segs;
  }

  lemma {:induction false} NonZeroNanos(ps: seq<Part>)
    requires PartsOk(ps)
    ensures PartsOk(NonZero(ps)) && PartsNanos(NonZero(ps)) == PartsNanos(ps)
  {
    NonZeroOk(ps);
    if ps != [] {
      NonZeroNanos(ps[1..]);
      if ps[0].count > 0 {
        assert NonZero(ps)[1..] == NonZero(ps[1..]);
      } else {
        assert NonZero(ps) == NonZero(ps[1..]);
        assert PartNanos(ps[0]) == 0;
      }
    }
  }

  lemma {:induction false} NanosStep(ps: seq<Part>, i: nat)
    requires PartsOk(ps) && i < |ps|
    ensures PartsNanos(ps[i..]) == PartNanos(ps[i]) + PartsNanos(ps[i + 1..])
  {
    assert ps[i..][0] == ps[i] && ps[i..][1..] == ps[i + 1..];
  }

  /** Mixed radix loses nothing. */
  lemma {:induction false} FieldsNanos(d: Duration)
    requires IsDuration(d)
    ensures PartsOk(Fields(d)) && PartsNanos(Fields(d)) == Nanos(d)
  {
    FieldsOk(d);
    var ps, s, n := Fields(d), d.secs, d.nanos;
    Weigh(ps);
    var r1, r2, r3 := s % 604_800, s % 604_800 % 86_400, s % 604_800 % 86_400 % 3600;
    assert s == ps[0].count * 604_800 + r1;
    assert r1 == ps[1].count * 86_400 + r2;
    assert r2 == ps[2].count * 3600 + r3;
    assert r3 == ps[3].count * 60 + ps[4].count;
    var m := n % 1_000_000;
    assert n == ps[5].count * 1_000_000 + m;
    assert m == ps[6].count * 1_000 + ps[7].count;
  }

  ghost predicate InOrder(ps: seq<Part>) {
    && |ps| == 8 && ps[0].unit == 8 && ps[1].unit == 7 && ps[2].unit == 6 && ps[3].unit == 5
    && ps[4].unit == 4 && ps[5].unit == 3 && ps[6].unit == 1 && ps[7].unit == 0
  }

  lemma {:induction false} Weigh(ps: seq<Part>)
    requires PartsOk(ps) && InOrder(ps)
    ensures PartsNanos(ps) ==
      (604_800 * ps[0].count + 86_400 * ps[1].count + 3600 * ps[2].count + 60 * ps[3].count + ps[4].count) * NANOS_PER_SECOND +
      (1_000_000 * ps[5].count + 1_000 * ps[6].count + ps[7].count)
  {
    assert ps[0..] == ps;
    NanosStep(ps, 0);
    NanosStep(ps, 1);
    NanosStep(ps, 2);
    NanosStep(ps, 3);
    NanosStep(ps, 4);
    WeighRest(ps);
    hide PartsOk;
    hide PartsNanos;
    UnitNanosIs(ps[0]);
    UnitNanosIs(ps[1]);
    UnitNanosIs(ps[2]);
    UnitNanosIs(ps[3]);
    UnitNanosIs(ps[4]);
    hide PartNanos;
  }

  lemma {:induction false} WeighRest(ps: seq<Part>)
    requires PartsOk(ps) && InOrder(ps)
    ensures PartsNanos(ps[5..]) == 1_000_000 * ps[5].count + 1_000 * ps[6].count + ps[7].count
  {
    assert ps[8..] == [];
    NanosStep(ps, 5);
    NanosStep(ps, 6);
    NanosStep(ps, 7);
    assert PartsNanos([]) == 0;
    hide PartsOk;
    hide PartsNanos;
    UnitNanosIs(ps[5]);
    UnitNanosIs(ps[6]);
    UnitNanosIs(ps[7]);
    hide PartNanos;
  }

  function UnitNanos(i: nat): nat {
    if i == 0 then 1 else if i <= 2 then 1_000 else if i == 3 then 1_000_000 else if i == 4 then 1_000_000_000
    else if i == 5 then 60_000_000_000 else if i == 6 then 3_600_000_000_000
    else if i == 7 then 86_400_000_000_000 else 604_800_000_000_000
  }

  lemma {:induction false} UnitNanosIs(p: Part)
    requires p.unit < |UNITS|
    ensures PartNanos(p) == p.count * UnitNanos(p.unit)
  {
    assert UNITS[p.unit].nanos == UnitNanos(p.unit);
  }

  lemma {:induction false} ShownNanos(d: Duration)
    requires IsDuration(d)
    ensures PartsOk(Shown(d)) && Shown(d) != [] && PartsNanos(Shown(d)) == Nanos(d)
  {
    if d == ZERO {
      assert PartsNanos([Part(0, 4)]) == PartNanos(Part(0, 4)) + PartsNanos([]);
    } else {
      FieldsNanos(d);
      NonZeroNanos(Fields(d));
      assert Nanos(d) > 0;
    }
  }

  // ---------------------------------------------------------------------
  // Round trip
  // ---------------------------------------------------------------------

  lemma {:induction false} JoinEnds(ps: seq<Part>)
    requires PartsOk(ps) && ps != []
    ensures var s := Join(Texts(ps)); s != [] && IsDigit(s[0]) && !IsSpace(s[|s| - 1])
    decreases |ps|
  {
    assert PartOk(ps[0]);
    UnitLetter(ps[0].unit);
    assert Texts(ps)[0] == PartText(ps[0]);
    if |ps| > 1 {
      assert PartsOk(ps[1..]);
      JoinEnds(ps[1..]);
    }
  }

  lemma {:induction false} Untrimmed(s: string)
    requires s != [] && IsDigit(s[0]) && !IsSpace(s[|s| - 1])
    ensures Parse(s) == Compound(s)
  {
    hide Compound;
    assert TrimStart(s) == s && TrimEnd(s) == s;
    assert Lower(s[0]) == s[0];
  }

  /** Round trip: parsing the printed text of any duration, up to and including the
      longest, gives back exactly that duration. */
  lemma {:induction false} RoundTrip(d: Duration)
    requires IsDuration(d)
    ensures Parse(Format(d)) == Ok(d)
  {
    ShownNanos(d);
    var ps := Shown(d);
    var segs, s := SegsOf(ps, ""), Format(d);
    JoinEnds(ps);
    Untrimmed(s);
    JoinDecomposes(ps, "");
    assert "" + s == s;
    PartsExact(ps, "");
    CompoundOk(s, segs);
    CompoundExact(s, segs);
    NoCap(d);
    NanosInjective(Compound(s).value, d);
  }

  lemma {:induction false} CompoundOk(s: string, segs: seq<Seg>)
    requires segs != [] && Decomposes(s, segs) && AllFit(segs)
    ensures Compound(s).Ok?
  {
    CompoundAccepts(s);
  }

  lemma {:induction false} NoCap(d: Duration)
    requires IsDuration(d)
    ensures Cap(Nanos(d)) == Nanos(d)
  {
  }

  /** A plus sign in front is optional, a minus sign is refused. */
  lemma {:induction false} Signs(d: Duration)
    requires IsDuration(d)
    ensures Parse(['+'] + Format(d)) == Ok(d) && Parse(['-'] + Format(d)).Err?
  {
    FormatEnds(d);
    RoundTrip(d);
    hide Format;
    hide Parse;
    hide Compound;
    hide IsDuration;
    Untrimmed(Format(d));
    PlusParses(Format(d));
    MinusFails(Format(d));
  }

  lemma {:induction false} FormatEnds(d: Duration)
    requires IsDuration(d)
    ensures var s := Format(d); s != [] && IsDigit(s[0]) && !IsSpace(s[|s| - 1])
  {
    ShownNanos(d);
    JoinEnds(Shown(d));
    hide Shown;
    hide Join;
    hide Texts;
  }

  lemma {:induction false} PlusParses(s: string)
    requires s != [] && IsDigit(s[0]) && !IsSpace(s[|s| - 1])
    ensures Parse(['+'] + s) == Compound(s)
  {
    hide Compound;
    Signed('+', s);
    hide Trim;
    assert (['+'] + s)[1..] == s;
    assert Lower(s[0]) == s[0];
  }

  lemma {:induction false} MinusFails(s: string)
    requires s != [] && !IsSpace(s[|s| - 1])
    ensures Parse(['-'] + s).Err?
  {
    hide Compound;
    Signed('-', s);
    hide Trim;
  }

  lemma {:induction false} Signed(c: char, s: string)
    requires s != [] && !IsSpace(c) && !IsSpace(s[|s| - 1])
    ensures Trim([c] + s) == [c] + s
  {
  }

  /** Hence different durations print differently. */
  lemma {:induction false} FormatInjective(a: Duration, b: Duration)
    requires IsDuration(a) && IsDuration(b) && Format(a) == Format(b)
    ensures a == b
  {
    RoundTrip(a);
    RoundTrip(b);
  }

  // ---------------------------------------------------------------------
  // What the documented texts are worth.
  // ---------------------------------------------------------------------

  lemma {:induction false} FirstNone(units: seq<Unit>, s: string)
    requires forall i :: 0 <= i < |units| ==> !IsPrefix(units[i].suffix, s)
    ensures FirstUnit(units, s).suffix == "" && FirstUnit(units, s).nanos == 1_000_000_000
  {
    if units != [] {
      assert !IsPrefix(units[0].suffix, s);
      FirstNone(units[1..], s);
    }
  }

  /** A number without a unit is in seconds: whatever follows it in the text, if that
      begins with no suffix of the table. */
  lemma {:induction false} UnitlessIsSeconds(s: string, g: Seg, rest: string)
    requires IsSegment(s, g, rest)
    requires forall i :: 0 <= i < |UNITS| ==> !IsPrefix(UNITS[i].suffix, g.unit.suffix + rest)
    ensures g.unit.suffix == "" && g.unit.nanos == 1_000_000_000
  {
    FirstNone(UNITS, g.unit.suffix + rest);
  }

  lemma {:induction false} NoUnitAt(rest: string)
    requires rest == [] || rest[0] == ' '
    ensures forall i :: 0 <= i < |UNITS| ==> !IsPrefix(UNITS[i].suffix, rest)
    ensures UnitOf(rest) == Unit("", 1_000_000_000)
  {
    forall i | 0 <= i < |UNITS|
      ensures !IsPrefix(UNITS[i].suffix, rest)
    {
      UnitLetter(i);
    }
    FirstNone(UNITS, rest);
    assert UnitOf(rest) == FirstUnit(UNITS, rest);
  }

  function BareSeg(n: nat, gap: string): Seg {
    Seg(gap, Dec(n), false, [], None, Unit("", 1_000_000_000))
  }

  lemma {:induction false} BareIsSegment(n: nat, gap: string, rest: string)
    requires AllSpace(gap) && (rest == [] || rest[0] == ' ')
    ensures IsSegment(gap + (Dec(n) + rest), BareSeg(n, gap), rest)
  {
    NoUnitAt(rest);
    hide UnitOf;
    var g := BareSeg(n, gap);
    BodyPlain(g, rest);
    assert g.unit.suffix + rest == rest;
  }

  lemma {:induction false} BareExact(n: nat, gap: string)
    requires n <= U64_MAX && AllSpace(gap)
    ensures SegOk(BareSeg(n, gap)) && Fits(BareSeg(n, gap)) && Sound(BareSeg(n, gap))
    ensures ExactOf(BareSeg(n, gap)) == n * 1_000_000_000
  {
    var g := BareSeg(n, gap);
    ValDec(n);
    assert Val([]) == 0;
    assert g.whole + g.frac == g.whole;
    FracScaled(g);
    PlainValue(g);
    PowZero();
    FitsPlain(g);
    hide Pow10;
    hide Exact;
    hide Val;
    hide Fits;
    WholeQuot(n, 1_000_000_000);
  }

  /** The value of a text whose first segment is `g`. */
  lemma {:induction false} TextWorth(s: string, g: Seg, rest: string, segs: seq<Seg>)
    requires IsSegment(s, g, rest) && Decomposes(rest, segs) && SegOk(g) && Fits(g) && Sound(g) && AllFit(segs) && AllSound(segs)
    requires s != [] && IsDigit(s[0]) && !IsSpace(s[|s| - 1])
    ensures Parse(s).Ok? && IsDuration(Parse(s).value) && Nanos(Parse(s).value) == Cap(ExactOf(g) + ExactSum(segs))
  {
    hide IsSegment;
    hide Decomposes;
    hide SegOk;
    hide Fits;
    hide Sound;
    hide AllFit;
    hide AllSound;
    hide ExactSum;
    hide ExactOf;
    hide Parse;
    hide Compound;
    hide IsDuration;
    hide Nanos;
    hide Cap;
    DecomposesCons(s, g, rest, segs);
    Untrimmed(s);
    SumsCons(g, segs);
    CompoundOk(s, [g] + segs);
    CompoundExact(s, [g] + segs);
  }

  lemma {:induction false} NothingMore()
    ensures Decomposes("", []) && AllFit([]) && AllSound([]) && ExactSum([]) == 0
  {
  }

  /** A bare number is that many seconds. */
  lemma {:induction false} BareSeconds(n: nat)
    requires n <= U64_MAX
    ensures Parse(Dec(n)) == Ok(Duration(n, 0))
  {
    hide IsSegment;
    hide Decomposes;
    hide SegOk;
    hide Fits;
    hide Sound;
    hide AllFit;
    hide AllSound;
    hide ExactSum;
    hide ExactOf;
    hide Parse;
    var g, s := BareSeg(n, ""), Dec(n);
    BareIsSegment(n, "", "");
    assert "" + (s + "") == s;
    BareExact(n, "");
    NothingMore();
    DecEnds(n);
    hide Dec;
    hide IsSpace;
    hide IsDigit;
    TextWorth(s, g, "", []);
    SecondsOnly(n);
    NanosInjective(Parse(s).value, Duration(n, 0));
  }

  lemma {:induction false} SecondsOnly(n: nat)
    requires n <= U64_MAX
    ensures IsDuration(Duration(n, 0)) && Cap(n * 1_000_000_000 + 0) == Nanos(Duration(n, 0))
  {
  }

  lemma {:induction false} DecEnds(n: nat)
    ensures Dec(n) != [] && IsDigit(Dec(n)[0]) && !IsSpace(Dec(n)[|Dec(n)| - 1])
  {
    var s := Dec(n);
    assert IsDigit(s[|s| - 1]);
  }

  /** The same inside a compound text: seconds, and then the duration that follows. */
  lemma {:induction false} BareInCompound(n: nat, d: Duration)
    requires n <= U64_MAX && IsDuration(d)
    ensures var s := Dec(n) + ([' '] + Format(d));
      Parse(s).Ok? && IsDuration(Parse(s).value) && Nanos(Parse(s).value) == Cap(n * 1_000_000_000 + Nanos(d))
  {
    hide IsSegment;
    hide Decomposes;
    hide SegOk;
    hide Fits;
    hide Sound;
    hide AllFit;
    hide AllSound;
    hide ExactSum;
    hide ExactOf;
    hide Parse;
    hide SegsOf;
    hide Shown;
    hide Nanos;
    hide Cap;
    var s := Dec(n) + ([' '] + Format(d));
    SpacedFormat(d);
    BareIsSegment(n, "", [' '] + Format(d));
    assert "" + s == s;
    BareExact(n, "");
    FormatEnds(d);
    DecEnds(n);
    hide Format;
    hide Dec;
    assert s[0] == Dec(n)[0] && s[|s| - 1] == Format(d)[|Format(d)| - 1];
    hide IsSpace;
    hide IsDigit;
    TextWorth(s, BareSeg(n, ""), [' '] + Format(d), SegsOf(Shown(d), " "));
  }

  lemma {:induction false} SpacedFormat(d: Duration)
    requires IsDuration(d)
    ensures PartsOk(Shown(d)) && Decomposes([' '] + Format(d), SegsOf(Shown(d), " "))
    ensures AllFit(SegsOf(Shown(d), " ")) && AllSound(SegsOf(Shown(d), " ")) && ExactSum(SegsOf(Shown(d), " ")) == Nanos(d)
  {
    ShownNanos(d);
    JoinDecomposes(Shown(d), " ");
    PartsExact(Shown(d), " ");
  }

  /** A count of a unit is that many of it. */
  ghost predicate WorthEach(n: nat, suffix: string, nanos: nat) {
    Parse(Dec(n) + suffix).Ok? && Nanos(Parse(Dec(n) + suffix).value) == Cap(n * nanos)
  }

  lemma {:induction false} OneUnit(n: nat, i: nat)
    requires n <= U64_MAX && i < |UNITS|
    ensures WorthEach(n, UNITS[i].suffix, UNITS[i].nanos)
  {
    hide IsSegment;
    hide Decomposes;
    hide SegOk;
    hide Fits;
    hide Sound;
    hide AllFit;
    hide AllSound;
    hide ExactSum;
    hide ExactOf;
    hide Parse;
    hide Nanos;
    hide Cap;
    var p := Part(n, i);
    var g, s := SegOf(p, ""), PartText(p);
    PartIsSegment(p, "", "");
    assert "" + (s + "") == s;
    PartExact(p, "");
    NothingMore();
    PartEnds(p);
    TextWorth(s, g, "", []);
  }

  lemma {:induction false} PartEnds(p: Part)
    requires p.unit < |UNITS|
    ensures var s := PartText(p); s != [] && IsDigit(s[0]) && !IsSpace(s[|s| - 1])
  {
    UnitLetter(p.unit);
  }

  /** The documented units. */
  lemma {:induction false} UnitTexts(n: nat)
    requires n <= U64_MAX
    ensures WorthEach(n, "ns", 1) && WorthEach(n, "us", 1_000) && WorthEach(n, "Ms", 1_000) && WorthEach(n, "ms", 1_000_000)
    ensures WorthEach(n, "s", 1_000_000_000) && WorthEach(n, "m", 60_000_000_000) && WorthEach(n, "h", 3_600_000_000_000)
    ensures WorthEach(n, "d", 86_400_000_000_000) && WorthEach(n, "w", 604_800_000_000_000)
  {
    hide WorthEach;
    forall i | 0 <= i < |UNITS|
      ensures WorthEach(n, UNITS[i].suffix, UNITS[i].nanos)
    {
      OneUnit(n, i);
    }
    assert UNITS[0] == Unit("ns", 1) && UNITS[1] == Unit("us", 1_000) && UNITS[2] == Unit("Ms", 1_000);
    assert UNITS[3] == Unit("ms", 1_000_000) && UNITS[4] == Unit("s", 1_000_000_000) && UNITS[5] == Unit("m", 60_000_000_000);
    assert UNITS[6] == Unit("h", 3_600_000_000_000) && UNITS[7] == Unit("d", 86_400_000_000_000);
    assert UNITS[8] == Unit("w", 604_800_000_000_000);
  }

  /** The infinity literals, in any mixture of cases and with an optional plus, are worth
      the longest duration; a minus, or nothing after the sign, is refused. */
  lemma {:induction false} InfinityTexts(s: string)
    requires Spells(s, "inf") || Spells(s, "infinity")
    ensures Parse(s) == Parse(['+'] + s) == Ok(Duration(0xFFFF_FFFF_FFFF_FFFF, 999_999_999))
    ensures Parse(['-'] + s).Err? && Parse("").Err? && Parse("+").Err?
  {
    SpellsWord(s, "inf");
    SpellsWord(s, "infinity");
    SpelledEnds(s);
    hide Compound, IsWord, Spells;
    assert TrimStart(s) == s && TrimEnd(s) == s;
    Signed('+', s);
    Signed('-', s);
    assert (['+'] + s)[1..] == s;
    assert TrimStart("+") == "+" && TrimEnd("+") == "+" && "+"[1..] == "";
  }

  lemma {:induction false} SpellsWord(s: string, word: string)
    requires forall i :: 0 <= i < |word| ==> !('A' <= word[i] <= 'Z')
    ensures IsWord(s, word) <==> Spells(s, word)
  {
  }

  lemma {:induction false} SpelledEnds(s: string)
    requires Spells(s, "inf") || Spells(s, "infinity")
    ensures s != [] && !IsSpace(s[0]) && !IsSpace(s[|s| - 1]) && s[0] != '+' && s[0] != '-'
  {
  }

  /** White space around a text does not matter. */
  lemma {:induction false} WhiteSpaceIgnored(c: char, s: string)
    requires c == ' ' || '\t' <= c <= '\r'
    ensures Parse([c] + s) == Parse(s) && Parse(s + [c]) == Parse(s)
  {
    assert IsSpace(c);
    assert ([c] + s)[1..] == s;
    assert TrimStart([c] + s) == TrimStart(s);
    TrimSnoc(s, c);
    hide TrimStart, TrimEnd, Unsigned;
  }

  lemma {:induction false} TrimSnoc(s: string, c: char)
    requires IsSpace(c)
    ensures TrimEnd(TrimStart(s + [c])) == TrimEnd(TrimStart(s))
  {
    if s == [] {
      assert s + [c] == [c] && [c][1..] == [];
      assert TrimStart([]) == [];
    } else if IsSpace(s[0]) {
      assert (s + [c])[1..] == s[1..] + [c];
      TrimSnoc(s[1..], c);
    } else {
      assert (s + [c])[..|s|] == s;
    }
  }

  /** The largest component comes first, and those that are zero are left out. */
  lemma {:induction false} FormatExample()
    ensures Format(Duration(5410, 0)) == "1h 30m 10s"
  {
    hide Fields, NonZero, Join, Texts, PartText;
    ExampleFields();
    ExampleTexts();
    ExampleJoin();
  }

  lemma {:induction false} ExampleFields()
    ensures NonZero(Fields(Duration(5410, 0))) == [Part(1, 6), Part(30, 5), Part(10, 4)]
  {
    var low := [Part(0, 3), Part(0, 1), Part(0, 0)];
    var mid := [Part(1, 6), Part(30, 5), Part(10, 4)] + low;
    assert NonZero([]) == [];
    hide NonZero;
    FieldsExample();
    hide Fields;
    NonZeroCons(Part(0, 0), []);
    NonZeroCons(Part(0, 1), [Part(0, 0)]);
    NonZeroCons(Part(0, 3), [Part(0, 1), Part(0, 0)]);
    NonZeroCons(Part(10, 4), low);
    NonZeroCons(Part(30, 5), [Part(10, 4)] + low);
    NonZeroCons(Part(1, 6), [Part(30, 5), Part(10, 4)] + low);
    NonZeroCons(Part(0, 7), mid);
    NonZeroCons(Part(0, 8), [Part(0, 7)] + mid);
    assert mid == [Part(1, 6)] + ([Part(30, 5), Part(10, 4)] + low);
    assert [Part(30, 5), Part(10, 4)] + low == [Part(30, 5)] + ([Part(10, 4)] + low);
    assert low == [Part(0, 3)] + [Part(0, 1), Part(0, 0)];
  }

  lemma {:induction false} FieldsExample()
    ensures Fields(Duration(5410, 0)) == [Part(0, 8)] + ([Part(0, 7)] + ([Part(1, 6), Part(30, 5), Part(10, 4)] +
      [Part(0, 3), Part(0, 1), Part(0, 0)]))
  {
  }

  lemma {:induction false} NonZeroCons(p: Part, rest: seq<Part>)
    ensures NonZero([p] + rest) == (if p.count == 0 then [] else [p]) + NonZero(rest)
  {
    assert ([p] + rest)[1..] == rest;
  }

  lemma {:induction false} ExampleTexts()
    ensures Texts([Part(1, 6), Part(30, 5), Part(10, 4)]) == ["1h", "30m", "10s"]
  {
    var ps := [Part(1, 6), Part(30, 5), Part(10, 4)];
    assert PartText(ps[0]) == "1h" && PartText(ps[1]) == "30m" && PartText(ps[2]) == "10s" by {
      assert Dec(1) == "1" && Dec(3) == "3" && Dec(30) == "30" && Dec(10) == "10";
    }
    hide PartText;
    assert ps[1..] == [Part(30, 5), Part(10, 4)] && ps[1..][1..] == [Part(10, 4)];
    assert ps[1..][1..][1..] == [];
    assert Texts(ps[1..][1..]) == ["10s"];
  }

  lemma {:induction false} ExampleJoin()
    ensures Join(["1h", "30m", "10s"]) == "1h 30m 10s"
  {
    assert ["1h", "30m", "10s"][1..] == ["30m", "10s"] && ["30m", "10s"][1..] == ["10s"];
  }
}
