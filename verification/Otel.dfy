/** Flattening of a metrics tree into columns: one row per data point, attribute
    lists as child arrays cut by offsets, and builders that are reset when a batch
    is finished. */
module Otel {
  import opened Prelude

  const I32_MAX: nat := 0x7FFF_FFFF
  const I64_MAX: nat := 0x7FFF_FFFF_FFFF_FFFF

  // ---------------------------------------------------------------------
  // Input
  // ---------------------------------------------------------------------

  datatype AttrValue = AStr(s: string) | AInt(i: int) | ADouble(x: real) | ABool(b: bool) | AArray | AOther
  datatype KeyValue = KeyValue(key: string, value: AttrValue)

  datatype Resource = Resource(schemaUrl: Option<string>, attrs: seq<KeyValue>)
  datatype Scope = Scope(name: string, version: Option<string>, attrs: seq<KeyValue>, schemaUrl: Option<string>)

  datatype Temporality = Delta | Cumulative | OtherTemporality
  datatype Data =
    | U64(n: nat)
    | I64(i: int)
    | F64(x: real)
    | Hist(count: nat, sum: real, min: Option<real>, max: Option<real>, buckets: seq<nat>, bounds: seq<real>)

  datatype DataPoint = DataPoint(attrs: seq<KeyValue>, data: Data)

  /** Times are nanoseconds relative to the Unix epoch. */
  datatype Aggregation =
    | Gauge(time: int, startTime: Option<int>, points: seq<DataPoint>)
    | Sum(time: int, start: int, temporality: Temporality, monotonic: bool, points: seq<DataPoint>)
    | Histogram(time: int, start: int, temporality: Temporality, points: seq<DataPoint>)
    | ExponentialHistogram

  datatype Metric = Metric(name: string, description: string, unit: string, aggregation: Aggregation)
  datatype ScopeMetrics = ScopeMetrics(scope: Scope, metrics: seq<Metric>)
  datatype ResourceMetrics = ResourceMetrics(resource: Resource, scopes: seq<ScopeMetrics>)

  /** Sums and gauges carry numbers, histograms carry histograms. */
  ghost predicate WellTyped(m: Metric) {
    match m.aggregation
    case Gauge(_, _, ps) => forall i :: 0 <= i < |ps| ==> !ps[i].data.Hist?
    case Sum(_, _, _, _, ps) => forall i :: 0 <= i < |ps| ==> !ps[i].data.Hist?
    case Histogram(_, _, _, ps) => forall i :: 0 <= i < |ps| ==> ps[i].data.Hist?
    case ExponentialHistogram => true
  }

  ghost predicate TreeOk(t: ResourceMetrics) {
    forall i, j :: 0 <= i < |t.scopes| && 0 <= j < |t.scopes[i].metrics| ==> WellTyped(t.scopes[i].metrics[j])
  }

  // ---------------------------------------------------------------------
  // Columns
  // ---------------------------------------------------------------------

  /** The child arrays of an attribute list column, its offsets and its validity. */
  datatype AttrCols = AttrCols(
    keys: seq<string>,
    types: seq<nat>,
    strs: seq<Option<string>>,
    ints: seq<Option<int>>,
    doubles: seq<Option<real>>,
    bools: seq<Option<bool>>,
    bytes: seq<Option<string>>,
    sers: seq<Option<string>>,
    valid: seq<bool>,
    offsets: seq<nat>,
    listValid: seq<bool>)

  datatype ResourceCols = ResourceCols(
    schemaUrls: seq<Option<string>>, attrs: AttrCols, dropped: seq<Option<nat>>, valid: seq<bool>)

  datatype ScopeCols = ScopeCols(
    names: seq<string>, versions: seq<Option<string>>, attrs: AttrCols, dropped: seq<Option<nat>>, valid: seq<bool>)

  datatype NumberCols = NumberCols(ints: seq<Option<int>>, doubles: seq<Option<real>>, valid: seq<bool>)

  datatype HistCols = HistCols(
    counts: seq<Option<nat>>,
    sums: seq<Option<real>>,
    buckets: seq<Option<seq<nat>>>,
    bounds: seq<Option<seq<real>>>,
    mins: seq<Option<real>>,
    maxs: seq<Option<real>>,
    valid: seq<bool>)

  /** The fifteen columns of the schema. */
  datatype Cols = Cols(
    times: seq<int>,
    starts: seq<Option<int>>,
    resource: ResourceCols,
    scope: ScopeCols,
    schemaUrls: seq<Option<string>>,
    types: seq<nat>,
    names: seq<string>,
    descriptions: seq<string>,
    units: seq<string>,
    temporalities: seq<Option<int>>,
    monotonics: seq<Option<bool>>,
    flags: seq<Option<nat>>,
    attrs: AttrCols,
    number: NumberCols,
    hist: HistCols)

  const NO_ATTRS: AttrCols := AttrCols([], [], [], [], [], [], [], [], [], [0], [])
  const NO_RESOURCE: ResourceCols := ResourceCols([], NO_ATTRS, [], [])
  const NO_SCOPE: ScopeCols := ScopeCols([], [], NO_ATTRS, [], [])
  const NO_NUMBER: NumberCols := NumberCols([], [], [])
  const NO_HIST: HistCols := HistCols([], [], [], [], [], [], [])
  const EMPTY: Cols := Cols([], [], NO_RESOURCE, NO_SCOPE, [], [], [], [], [], [], [], [], NO_ATTRS, NO_NUMBER, NO_HIST)

  // ---------------------------------------------------------------------
  // Attribute lists
  // ---------------------------------------------------------------------

  /** One attribute as its cells. */
  datatype AttrCell = AttrCell(
    key: string, kind: nat, str: Option<string>, num: Option<int>, double: Option<real>, flag: Option<bool>,
    bytes: Option<string>, ser: Option<string>, valid: bool)

  function CellOf(kv: KeyValue): AttrCell {
    match kv.value
    case AStr(s) => AttrCell(kv.key, 1, Some(s), None, None, None, None, None, true)
    case AInt(i) => AttrCell(kv.key, 2, None, Some(i), None, None, None, None, true)
    case ADouble(x) => AttrCell(kv.key, 3, None, None, Some(x), None, None, None, true)
    case ABool(b) => AttrCell(kv.key, 4, None, None, None, Some(b), None, None, true)
    case AArray => AttrCell(kv.key, 7, None, None, None, None, Some(""), None, true)
    case AOther => AttrCell(kv.key, 255, None, None, None, None, None, None, true)
  }

  function CellsOf(kvs: seq<KeyValue>): (cs: seq<AttrCell>)
    ensures |cs| == |kvs|
  {
    seq(|kvs|, i requires 0 <= i < |kvs| => CellOf(kvs[i]))
  }

  /** The child arrays have one length. */
  predicate Even(a: AttrCols) {
    && |a.types| == |a.keys| && |a.strs| == |a.keys| && |a.ints| == |a.keys| && |a.doubles| == |a.keys|
    && |a.bools| == |a.keys| && |a.bytes| == |a.keys| && |a.sers| == |a.keys| && |a.valid| == |a.keys|
  }

  /** Offsets start at zero, never decrease, and end within the child arrays: what
      building the list without a check relies on. */
  ghost predicate OffsetsOk(a: AttrCols) {
    && |a.offsets| == |a.listValid| + 1 && a.offsets[0] == 0
    && (forall i, j :: 0 <= i <= j < |a.offsets| ==> a.offsets[i] <= a.offsets[j])
    && (forall i :: 0 <= i < |a.offsets| ==> a.offsets[i] <= |a.keys| && a.offsets[i] <= I32_MAX)
  }

  ghost predicate AttrsOk(a: AttrCols) {
    Even(a) && OffsetsOk(a)
  }

  function Rows(a: AttrCols): nat {
    |a.listValid|
  }

  function CellAt(a: AttrCols, i: nat): AttrCell
    requires Even(a) && i < |a.keys|
  {
    AttrCell(a.keys[i], a.types[i], a.strs[i], a.ints[i], a.doubles[i], a.bools[i], a.bytes[i], a.sers[i], a.valid[i])
  }

  /** The list of row `i`, cut out by the offsets. */
  ghost function ListAt(a: AttrCols, i: nat): seq<AttrCell>
    requires AttrsOk(a) && i < Rows(a)
  {
    seq(a.offsets[i + 1] - a.offsets[i], k requires 0 <= k < a.offsets[i + 1] - a.offsets[i] => CellAt(a, a.offsets[i] + k))
  }

  function AppendCell(a: AttrCols, c: AttrCell): AttrCols {
    a.(keys := a.keys + [c.key], types := a.types + [c.kind], strs := a.strs + [c.str], ints := a.ints + [c.num],
       doubles := a.doubles + [c.double], bools := a.bools + [c.flag], bytes := a.bytes + [c.bytes],
       sers := a.sers + [c.ser], valid := a.valid + [c.valid])
  }

  function AppendCells(a: AttrCols, cs: seq<AttrCell>): AttrCols {
    if cs == [] then a else AppendCell(AppendCells(a, cs[..|cs| - 1]), cs[|cs| - 1])
  }

  /** `AttributesBuilder::append`: closes the list of the current row. */
  function CloseList(a: AttrCols): AttrCols {
    a.(offsets := a.offsets + [|a.keys|], listValid := a.listValid + [true])
  }

  function PushList(a: AttrCols, cs: seq<AttrCell>): AttrCols {
    CloseList(AppendCells(a, cs))
  }

  /** `add_attributes_to_builder`: fails when the offset does not fit i32, with the
      attributes already appended. */
  method AddAttributes(a: AttrCols, kvs: seq<KeyValue>) returns (ok: bool, r: AttrCols)
    requires AttrsOk(a)
    ensures ok <==> |a.keys| + |kvs| <= I32_MAX
    ensures AttrsOk(r) && r == if ok then PushList(a, CellsOf(kvs)) else AppendCells(a, CellsOf(kvs))
  {
    r := a;
    var i := 0;
    while i < |kvs|
      invariant 0 <= i <= |kvs| && r == AppendCells(a, CellsOf(kvs)[..i])
    {
      assert CellsOf(kvs)[..i + 1][..i] == CellsOf(kvs)[..i];
      r := AppendCell(r, CellOf(kvs[i]));
      i := i + 1;
    }
    assert CellsOf(kvs)[..i] == CellsOf(kvs);
    AppendedOk(a, CellsOf(kvs));
    ok := |r.keys| <= I32_MAX;
    if ok {
      ClosedOk(r);
      r := CloseList(r);
    }
  }

  /** `r` is `a` with the cells `cs` after its own. */
  ghost predicate Extends(a: AttrCols, cs: seq<AttrCell>, r: AttrCols)
    requires Even(a)
  {
    && AttrsOk(r) && |r.keys| == |a.keys| + |cs| && r.offsets == a.offsets && r.listValid == a.listValid
    && (forall i :: 0 <= i < |a.keys| ==> CellAt(r, i) == CellAt(a, i))
    && (forall i :: 0 <= i < |cs| ==> CellAt(r, |a.keys| + i) == cs[i])
  }

  lemma {:induction false} AppendedOk(a: AttrCols, cs: seq<AttrCell>)
    requires AttrsOk(a)
    ensures Extends(a, cs, AppendCells(a, cs))
    decreases |cs|
  {
    if cs != [] {
      var n := |cs| - 1;
      var b := AppendCells(a, cs[..n]);
      AppendedOk(a, cs[..n]);
      AppendedOne(b, cs[n]);
      hide AppendCell;
      hide AppendCells;
      ExtendsOne(a, cs, b, AppendCell(b, cs[n]));
    }
  }

  lemma {:induction false} ExtendsOne(a: AttrCols, cs: seq<AttrCell>, b: AttrCols, r: AttrCols)
    requires Even(a) && cs != [] && Extends(a, cs[..|cs| - 1], b) && Extends(b, [cs[|cs| - 1]], r)
    ensures Extends(a, cs, r)
  {
    hide OffsetsOk;
    hide CellAt;
    var n := |cs| - 1;
    forall i | 0 <= i < |cs|
      ensures CellAt(r, |a.keys| + i) == cs[i]
    {
      if i < n {
        assert cs[..n][i] == cs[i];
        assert CellAt(b, |a.keys| + i) == cs[i];
      } else {
        assert CellAt(r, |b.keys| + 0) == [cs[n]][0];
      }
    }
  }

  lemma {:induction false} AppendedOne(a: AttrCols, c: AttrCell)
    requires AttrsOk(a)
    ensures Extends(a, [c], AppendCell(a, c))
  {
  }

  lemma {:induction false} ClosedOk(a: AttrCols)
    requires AttrsOk(a) && |a.keys| <= I32_MAX
    ensures AttrsOk(CloseList(a)) && Rows(CloseList(a)) == Rows(a) + 1
  {
  }

  /** Slicing by the offsets recovers every row's attributes: the old rows keep
      theirs and the new row has the list just pushed. */
  lemma {:induction false} ListsRecovered(a: AttrCols, cs: seq<AttrCell>, i: nat)
    requires AttrsOk(a) && |a.keys| + |cs| <= I32_MAX && i <= Rows(a) && a.offsets[Rows(a)] == |a.keys|
    ensures AttrsOk(PushList(a, cs)) && Rows(PushList(a, cs)) == Rows(a) + 1
    ensures PushList(a, cs).offsets[Rows(a) + 1] == |PushList(a, cs).keys| == |a.keys| + |cs|
    ensures ListAt(PushList(a, cs), i) == if i < Rows(a) then ListAt(a, i) else cs
  {
    var b, r := AppendCells(a, cs), PushList(a, cs);
    AppendedOk(a, cs);
    ClosedOk(b);
    hide AppendCells;
    ListsClosed(a, cs, b, i);
  }

  lemma {:induction false} ListsClosed(a: AttrCols, cs: seq<AttrCell>, b: AttrCols, i: nat)
    requires AttrsOk(a) && i <= Rows(a) && a.offsets[Rows(a)] == |a.keys| && Extends(a, cs, b)
    requires AttrsOk(CloseList(b)) && Rows(CloseList(b)) == Rows(a) + 1
    ensures ListAt(CloseList(b), i) == if i < Rows(a) then ListAt(a, i) else cs
  {
    var r := CloseList(b);
    assert forall k :: 0 <= k < |b.keys| ==> CellAt(r, k) == CellAt(b, k);
    assert r.offsets[i] == a.offsets[i];
    hide CellAt;
    if i < Rows(a) {
      assert r.offsets[i + 1] == a.offsets[i + 1];
      assert ListAt(r, i) == ListAt(a, i);
    } else {
      assert r.offsets[i + 1] == |b.keys|;
      assert ListAt(r, i) == cs;
    }
  }
}
