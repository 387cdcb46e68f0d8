/** The converter object: rows are appended column by column, a finished batch
    resets all builders. */
module OtelConverter {
  import opened Prelude
  import opened Otel

  // ---------------------------------------------------------------------
  // Rows
  // ---------------------------------------------------------------------

  datatype NumberCell = NumberCell(int64: Option<int>, float64: Option<real>)
  datatype HistCell = HistCell(count: nat, sum: real, buckets: seq<nat>, bounds: seq<real>, min: Option<real>, max: Option<real>)

  datatype Row = Row(
    time: int, start: Option<int>,
    resourceUrl: Option<string>, resourceAttrs: seq<AttrCell>,
    scopeName: string, scopeVersion: Option<string>, scopeAttrs: seq<AttrCell>, scopeUrl: Option<string>,
    kind: nat, name: string, description: string, unit: string,
    temporality: Option<int>, monotonic: Option<bool>,
    attrs: seq<AttrCell>, number: Option<NumberCell>, hist: Option<HistCell>)

  /** A data point with everything around it, or an aggregation that is refused. */
  datatype Item = Item(resource: Resource, scope: Scope, metric: Metric, point: DataPoint) | Unsupported

  function TimeOf(a: Aggregation): int {
    if a.ExponentialHistogram? then 0 else a.time
  }

  function StartOf(a: Aggregation): Option<int> {
    match a
    case Gauge(_, s, _) => s
    case Sum(_, s, _, _, _) => Some(s)
    case Histogram(_, s, _, _) => Some(s)
    case ExponentialHistogram => None
  }

  function KindOf(a: Aggregation): nat {
    match a
    case Gauge(_, _, _) => 1
    case Sum(_, _, _, _, _) => 2
    case _ => 3
  }

  function PointsOf(a: Aggregation): seq<DataPoint> {
    if a.ExponentialHistogram? then [] else a.points
  }

  function TemporalityOf(a: Aggregation): Option<Temporality> {
    match a
    case Sum(_, _, t, _, _) => Some(t)
    case Histogram(_, _, t, _) => Some(t)
    case _ => None
  }

  function TemporalityCode(t: Option<Temporality>): Option<int> {
    if t == Some(Delta) then Some(1) else if t == Some(Cumulative) then Some(2) else None
  }

  function NumberOf(d: Data): Option<NumberCell> {
    match d
    case U64(n) => Some(NumberCell(Some(n), None))
    case I64(i) => Some(NumberCell(Some(i), None))
    case F64(x) => Some(NumberCell(None, Some(x)))
    case Hist(_, _, _, _, _, _) => None
  }

  function HistOf(d: Data): Option<HistCell> {
    match d
    case Hist(count, sum, min, max, buckets, bounds) => Some(HistCell(count, sum, buckets, bounds, min, max))
    case _ => None
  }

  /** The row a data point stands for. */
  function RowOf(it: Item): Row
    requires it.Item?
  {
    var a := it.metric.aggregation;
    Row(TimeOf(a), StartOf(a),
        it.resource.schemaUrl, CellsOf(it.resource.attrs),
        it.scope.name, it.scope.version, CellsOf(it.scope.attrs), it.scope.schemaUrl,
        KindOf(a), it.metric.name, it.metric.description, it.metric.unit,
        TemporalityCode(TemporalityOf(a)), if a.Sum? then Some(a.monotonic) else None,
        CellsOf(it.point.attrs), NumberOf(it.point.data), HistOf(it.point.data))
  }

  predicate TimeOk(nanos: int) {
    0 <= nanos <= I64_MAX
  }

  /** The item can be represented, given how many attributes there are already. */
  predicate Accepts(c: Cols, it: Item) {
    it.Item? &&
    var a := it.metric.aggregation;
    && 0 <= TimeOf(a) <= 0x7FFF_FFFF_FFFF_FFFF && (StartOf(a).Some? ==> 0 <= StartOf(a).value <= 0x7FFF_FFFF_FFFF_FFFF)
    && TemporalityOf(a) != Some(OtherTemporality)
    && (it.point.data.U64? ==> it.point.data.n <= 0x7FFF_FFFF_FFFF_FFFF)
    && |c.resource.attrs.keys| + |it.resource.attrs| <= 0x7FFF_FFFF
    && |c.scope.attrs.keys| + |it.scope.attrs| <= 0x7FFF_FFFF
    && |c.attrs.keys| + |it.point.attrs| <= 0x7FFF_FFFF
  }

  // ---------------------------------------------------------------------
  // Appending a row
  // ---------------------------------------------------------------------

  function PushResource(r: ResourceCols, row: Row): ResourceCols {
    ResourceCols(r.schemaUrls + [row.resourceUrl], PushList(r.attrs, row.resourceAttrs), r.dropped + [None], r.valid + [true])
  }

  function PushScope(s: ScopeCols, row: Row): ScopeCols {
    ScopeCols(s.names + [row.scopeName], s.versions + [row.scopeVersion], PushList(s.attrs, row.scopeAttrs),
              s.dropped + [None], s.valid + [true])
  }

  function PushNumber(n: NumberCols, cell: Option<NumberCell>): NumberCols {
    match cell
    case None => NumberCols(n.ints + [None], n.doubles + [None], n.valid + [false])
    case Some(x) => NumberCols(n.ints + [x.int64], n.doubles + [x.float64], n.valid + [true])
  }

  function PushHist(h: HistCols, cell: Option<HistCell>): HistCols {
    match cell
    case None =>
      HistCols(h.counts + [None], h.sums + [None], h.buckets + [None], h.bounds + [None],
               h.mins + [None], h.maxs + [None], h.valid + [false])
    case Some(x) =>
      HistCols(h.counts + [Some(x.count)], h.sums + [Some(x.sum)], h.buckets + [Some(x.buckets)],
               h.bounds + [Some(x.bounds)], h.mins + [x.min], h.maxs + [x.max], h.valid + [true])
  }

  function Push(c: Cols, row: Row): Cols {
    Cols(c.times + [row.time], c.starts + [row.start], PushResource(c.resource, row), PushScope(c.scope, row),
         c.schemaUrls + [row.scopeUrl], c.types + [row.kind], c.names + [row.name],
         c.descriptions + [row.description], c.units + [row.unit], c.temporalities + [row.temporality],
         c.monotonics + [row.monotonic], c.flags + [None], PushList(c.attrs, row.attrs),
         PushNumber(c.number, row.number), PushHist(c.hist, row.hist))
  }

  // ---------------------------------------------------------------------
  // Reading a row back
  // ---------------------------------------------------------------------

  /** A list column with `n` rows and nothing after the last of them. */
  ghost predicate ListsAre(a: AttrCols, n: nat) {
    AttrsOk(a) && Rows(a) == n && a.offsets[n] == |a.keys|
  }

  ghost predicate NumberIs(x: NumberCols, n: nat) {
    |x.ints| == n && |x.doubles| == n && |x.valid| == n
  }

  ghost predicate HistIs(h: HistCols, n: nat) {
    && |h.counts| == n && |h.sums| == n && |h.buckets| == n && |h.bounds| == n
    && |h.mins| == n && |h.maxs| == n && |h.valid| == n
    && forall i :: 0 <= i < n && h.valid[i] ==>
         h.counts[i].Some? && h.sums[i].Some? && h.buckets[i].Some? && h.bounds[i].Some?
  }

  ghost predicate ResourceIs(r: ResourceCols, n: nat) {
    |r.schemaUrls| == n && ListsAre(r.attrs, n) && |r.dropped| == n && |r.valid| == n
  }

  ghost predicate ScopeIs(s: ScopeCols, n: nat) {
    |s.names| == n && |s.versions| == n && ListsAre(s.attrs, n) && |s.dropped| == n && |s.valid| == n
  }

  /** All fifteen columns have `n` rows. */
  ghost predicate Aligned(c: Cols, n: nat) {
    && |c.times| == n && |c.starts| == n && ResourceIs(c.resource, n) && ScopeIs(c.scope, n)
    && |c.schemaUrls| == n && |c.types| == n && |c.names| == n && |c.descriptions| == n && |c.units| == n
    && |c.temporalities| == n && |c.monotonics| == n && |c.flags| == n
    && ListsAre(c.attrs, n) && NumberIs(c.number, n) && HistIs(c.hist, n)
  }

  ghost function NumberAt(x: NumberCols, i: nat): Option<NumberCell>
    requires NumberIs(x, |x.valid|) && i < |x.valid|
  {
    if x.valid[i] then Some(NumberCell(x.ints[i], x.doubles[i])) else None
  }

  ghost function HistAt(h: HistCols, i: nat): Option<HistCell>
    requires HistIs(h, |h.valid|) && i < |h.valid|
  {
    if h.valid[i] then
      Some(HistCell(h.counts[i].value, h.sums[i].value, h.buckets[i].value, h.bounds[i].value, h.mins[i], h.maxs[i]))
    else None
  }

  ghost function RowAt(c: Cols, n: nat, i: nat): Row
    requires Aligned(c, n) && i < n
  {
    Row(c.times[i], c.starts[i],
        c.resource.schemaUrls[i], ListAt(c.resource.attrs, i),
        c.scope.names[i], c.scope.versions[i], ListAt(c.scope.attrs, i), c.schemaUrls[i],
        c.types[i], c.names[i], c.descriptions[i], c.units[i],
        c.temporalities[i], c.monotonics[i],
        ListAt(c.attrs, i), NumberAt(c.number, i), HistAt(c.hist, i))
  }

  ghost predicate Room(c: Cols, row: Row) {
    && |c.resource.attrs.keys| + |row.resourceAttrs| <= I32_MAX
    && |c.scope.attrs.keys| + |row.scopeAttrs| <= I32_MAX
    && |c.attrs.keys| + |row.attrs| <= I32_MAX
  }

  lemma {:induction false} PushedLists(a: AttrCols, n: nat, cs: seq<AttrCell>)
    requires ListsAre(a, n) && |a.keys| + |cs| <= I32_MAX
    ensures ListsAre(PushList(a, cs), n + 1)
    ensures forall i :: 0 <= i <= n ==> ListAt(PushList(a, cs), i) == if i < n then ListAt(a, i) else cs
  {
    hide ListAt;
    hide PushList;
    ListsRecovered(a, cs, n);
    forall i | 0 <= i <= n
      ensures ListAt(PushList(a, cs), i) == if i < n then ListAt(a, i) else cs
    {
      ListsRecovered(a, cs, i);
    }
  }

  lemma {:induction false} PushedNumber(x: NumberCols, n: nat, cell: Option<NumberCell>)
    requires NumberIs(x, n)
    ensures NumberIs(PushNumber(x, cell), n + 1)
    ensures forall i :: 0 <= i <= n ==> NumberAt(PushNumber(x, cell), i) == if i < n then NumberAt(x, i) else cell
  {
  }

  lemma {:induction false} PushedHist(h: HistCols, n: nat, cell: Option<HistCell>)
    requires HistIs(h, n)
    ensures HistIs(PushHist(h, cell), n + 1)
    ensures forall i :: 0 <= i <= n ==> HistAt(PushHist(h, cell), i) == if i < n then HistAt(h, i) else cell
  {
  }

  /** A pushed row can be read back, and does not disturb the others. */
  lemma {:induction false} PushedRow(c: Cols, n: nat, row: Row)
    requires Aligned(c, n) && Room(c, row)
    ensures Aligned(Push(c, row), n + 1)
    ensures forall i :: 0 <= i < n ==> RowAt(Push(c, row), n + 1, i) == RowAt(c, n, i)
    ensures RowAt(Push(c, row), n + 1, n) == row
  {
    hide ListAt;
    hide PushList;
    hide ListsAre;
    hide NumberIs;
    hide HistIs;
    hide NumberAt;
    hide HistAt;
    hide PushNumber;
    hide PushHist;
    PushedLists(c.resource.attrs, n, row.resourceAttrs);
    PushedLists(c.scope.attrs, n, row.scopeAttrs);
    PushedLists(c.attrs, n, row.attrs);
    PushedNumber(c.number, n, row.number);
    PushedHist(c.hist, n, row.hist);
    var r := Push(c, row);
    assert Aligned(r, n + 1);
    forall i | 0 <= i < n
      ensures RowAt(r, n + 1, i) == RowAt(c, n, i)
    {
    }
  }

  /** Exactly one of number and histogram is valid, as the metric type says. */
  lemma {:induction false} OneKind(it: Item)
    requires it.Item? && WellTyped(it.metric) && it.point in PointsOf(it.metric.aggregation)
    ensures var row := RowOf(it);
      row.number.Some? != row.hist.Some? && (row.hist.Some? <==> row.kind == 3)
  {
    var ps := PointsOf(it.metric.aggregation);
    var i :| 0 <= i < |ps| && ps[i] == it.point;
  }

  // ---------------------------------------------------------------------
  // Whole trees
  // ---------------------------------------------------------------------

  function PointItems(res: Resource, scope: Scope, m: Metric, ps: seq<DataPoint>): seq<Item> {
    if ps == [] then [] else [Item(res, scope, m, ps[0])] + PointItems(res, scope, m, ps[1..])
  }

  function MetricItems(res: Resource, scope: Scope, m: Metric): seq<Item> {
    if m.aggregation.ExponentialHistogram? then [Unsupported]
    else PointItems(res, scope, m, PointsOf(m.aggregation))
  }

  function ScopeItems(res: Resource, scope: Scope, ms: seq<Metric>): seq<Item> {
    if ms == [] then [] else MetricItems(res, scope, ms[0]) + ScopeItems(res, scope, ms[1..])
  }

  function TreeItems(res: Resource, scopes: seq<ScopeMetrics>): seq<Item> {
    if scopes == [] then [] else ScopeItems(res, scopes[0].scope, scopes[0].metrics) + TreeItems(res, scopes[1..])
  }

  /** All data points of the tree, in order. */
  function Items(t: ResourceMetrics): seq<Item> {
    TreeItems(t.resource, t.scopes)
  }

  function PushOne(c: Cols, it: Item): Cols {
    if it.Item? then Push(c, RowOf(it)) else c
  }

  function PushAll(c: Cols, its: seq<Item>): Cols
    decreases |its|
  {
    if its == [] then c else PushAll(PushOne(c, its[0]), its[1..])
  }

  /** How many items are accepted before the first refusal. */
  function Accepted(c: Cols, its: seq<Item>): (n: nat)
    ensures n <= |its|
    decreases |its|
  {
    if its == [] || !Accepts(c, its[0]) then 0 else 1 + Accepted(PushOne(c, its[0]), its[1..])
  }

  lemma {:induction false} PushAllAppend(c: Cols, a: seq<Item>, b: seq<Item>)
    ensures PushAll(c, a + b) == PushAll(PushAll(c, a), b)
    decreases |a|
  {
    hide PushOne;
    if a == [] {
      assert a + b == b;
    } else {
      assert (a + b)[1..] == a[1..] + b;
      PushAllAppend(PushOne(c, a[0]), a[1..], b);
    }
  }

  lemma {:induction false} AcceptedAppend(c: Cols, a: seq<Item>, b: seq<Item>)
    ensures Accepted(c, a + b) == if Accepted(c, a) < |a| then Accepted(c, a) else |a| + Accepted(PushAll(c, a), b)
    decreases |a|
  {
    hide PushOne;
    hide Accepts;
    if a == [] {
      assert a + b == b;
    } else {
      assert (a + b)[1..] == a[1..] + b;
      if Accepts(c, a[0]) {
        AcceptedAppend(PushOne(c, a[0]), a[1..], b);
      }
    }
  }

  /** The item's point really is one of its metric's, and of the right kind. */
  ghost predicate Typed(it: Item) {
    it.Item? ==> WellTyped(it.metric) && it.point in PointsOf(it.metric.aggregation)
  }

  ghost predicate AllTyped(its: seq<Item>) {
    forall i :: 0 <= i < |its| ==> Typed(its[i])
  }

  lemma {:induction false} PointsTyped(res: Resource, scope: Scope, m: Metric, ps: seq<DataPoint>)
    requires WellTyped(m) && forall i :: 0 <= i < |ps| ==> ps[i] in PointsOf(m.aggregation)
    ensures AllTyped(PointItems(res, scope, m, ps))
  {
    hide WellTyped;
    if ps != [] {
      PointsTyped(res, scope, m, ps[1..]);
      assert Typed(Item(res, scope, m, ps[0]));
    }
  }

  lemma {:induction false} MetricsTyped(res: Resource, scope: Scope, ms: seq<Metric>)
    requires forall i :: 0 <= i < |ms| ==> WellTyped(ms[i])
    ensures AllTyped(ScopeItems(res, scope, ms))
  {
    hide WellTyped;
    if ms != [] {
      MetricsTyped(res, scope, ms[1..]);
      if !ms[0].aggregation.ExponentialHistogram? {
        PointsTyped(res, scope, ms[0], PointsOf(ms[0].aggregation));
      }
      hide Typed;
    }
  }

  lemma {:induction false} ScopesTyped(res: Resource, scopes: seq<ScopeMetrics>)
    requires TreeOk(ResourceMetrics(res, scopes))
    ensures AllTyped(TreeItems(res, scopes))
  {
    hide WellTyped;
    hide Typed;
    if scopes != [] {
      MetricsTyped(res, scopes[0].scope, scopes[0].metrics);
      assert TreeOk(ResourceMetrics(res, scopes[1..]));
      ScopesTyped(res, scopes[1..]);
    }
  }

  /** In every batch of a tree, each row has exactly one of number and histogram, as
      its metric type says. */
  lemma {:induction false} BatchKinds(c: Cols, t: ResourceMetrics)
    requires TreeOk(t) && Faithful(c, Items(t))
    ensures forall i :: 0 <= i < |Items(t)| ==>
      && c.number.valid[i] != c.hist.valid[i]
      && (c.hist.valid[i] <==> c.types[i] == 3)
  {
    ScopesTyped(t.resource, t.scopes);
    assert t == ResourceMetrics(t.resource, t.scopes);
    var its := Items(t);
    hide Items;
    forall i | 0 <= i < |its|
      ensures c.number.valid[i] != c.hist.valid[i] && (c.hist.valid[i] <==> c.types[i] == 3)
    {
      assert Typed(its[i]);
      RowKind(c, its, i);
    }
  }

  lemma {:induction false} RowKind(c: Cols, its: seq<Item>, i: nat)
    requires Faithful(c, its) && i < |its| && Typed(its[i])
    ensures c.number.valid[i] != c.hist.valid[i] && (c.hist.valid[i] <==> c.types[i] == 3)
  {
    hide RowOf;
    OneKind(its[i]);
    assert RowAt(c, |its|, i) == RowOf(its[i]);
  }

  ghost predicate Sane(c: Cols) {
    AttrsOk(c.resource.attrs) && AttrsOk(c.scope.attrs) && AttrsOk(c.attrs)
  }

  // ---------------------------------------------------------------------
  // What a refused item leaves in the columns.
  // ---------------------------------------------------------------------

  /** The item is refused before anything has been appended for it. */
  predicate RefusedAtOnce(it: Item) {
    it.Unsupported? || !TimeOk(TimeOf(it.metric.aggregation))
  }

  /** The columns that hold a cell of the item after both times, its resource and its
      scope have been accepted. */
  function Headed(c: Cols, row: Row): Cols {
    c.(times := c.times + [row.time], starts := c.starts + [row.start],
       resource := PushResource(c.resource, row), scope := PushScope(c.scope, row),
       schemaUrls := c.schemaUrls + [row.scopeUrl], types := c.types + [row.kind], names := c.names + [row.name],
       descriptions := c.descriptions + [row.description], units := c.units + [row.unit])
  }

  /** The columns after an item that is not accepted: as they were, or with the
      beginning of a row, up to the cell that could not be represented. */
  function Refused(c: Cols, it: Item): Cols {
    if RefusedAtOnce(it) then c
    else
      var row, a := RowOf(it), it.metric.aggregation;
      var timed := c.(times := c.times + [row.time]);
      var started := timed.(starts := timed.starts + [row.start]);
      if StartOf(a).Some? && !TimeOk(StartOf(a).value) then timed
      else if |c.resource.attrs.keys| + |it.resource.attrs| > I32_MAX then
        started.(resource := c.resource.(schemaUrls := c.resource.schemaUrls + [row.resourceUrl],
                                         attrs := AppendCells(c.resource.attrs, row.resourceAttrs)))
      else if |c.scope.attrs.keys| + |it.scope.attrs| > I32_MAX then
        started.(resource := PushResource(c.resource, row),
                 scope := c.scope.(names := c.scope.names + [row.scopeName], versions := c.scope.versions + [row.scopeVersion],
                                   attrs := AppendCells(c.scope.attrs, row.scopeAttrs)))
      else
        var headed := Headed(c, row);
        var flagged := headed.(temporalities := headed.temporalities + [row.temporality],
                               monotonics := headed.monotonics + [row.monotonic], flags := headed.flags + [None]);
        if TemporalityOf(a) == Some(OtherTemporality) then headed
        else if |c.attrs.keys| + |it.point.attrs| > I32_MAX then flagged.(attrs := AppendCells(c.attrs, row.attrs))
        else flagged.(attrs := PushList(c.attrs, row.attrs))
  }

  /** The columns after a list of items, up to and including the first refused one. */
  function Process(c: Cols, its: seq<Item>): Cols
    decreases |its|
  {
    if its == [] then c
    else if Accepts(c, its[0]) then Process(PushOne(c, its[0]), its[1..])
    else Refused(c, its[0])
  }

  lemma {:induction false} ProcessIs(c: Cols, its: seq<Item>)
    ensures var n := Accepted(c, its);
      Process(c, its) == if n == |its| then PushAll(c, its) else Refused(PushAll(c, its[..n]), its[n])
    decreases |its|
  {
    hide Accepts;
    hide Refused;
    hide PushOne;
    if its != [] && Accepts(c, its[0]) {
      var n := Accepted(c, its);
      ProcessIs(PushOne(c, its[0]), its[1..]);
      if n < |its| {
        assert its[..n][1..] == its[1..][..n - 1];
        assert its[..n][0] == its[0];
      }
    }
  }

  lemma {:induction false} ProcessAppend(c: Cols, a: seq<Item>, b: seq<Item>)
    ensures Process(c, a + b) == if Accepted(c, a) < |a| then Process(c, a) else Process(PushAll(c, a), b)
    decreases |a|
  {
    hide PushOne;
    hide Accepts;
    hide Refused;
    if a == [] {
      assert a + b == b;
    } else {
      assert (a + b)[1..] == a[1..] + b;
      if Accepts(c, a[0]) {
        ProcessAppend(PushOne(c, a[0]), a[1..], b);
      }
    }
  }

  /** What processing `its` on `c0` does: it succeeds exactly if every item is
      accepted, and the columns are those of `Process`. */
  ghost predicate Ran(c0: Cols, its: seq<Item>, ok: bool, c: Cols) {
    Sane(c) && (ok <==> Accepted(c0, its) == |its|) && c == Process(c0, its)
  }

  lemma {:induction false} RanThen(c0: Cols, a: seq<Item>, c1: Cols, b: seq<Item>, ok: bool, c2: Cols)
    requires Ran(c0, a, true, c1) && Ran(c1, b, ok, c2)
    ensures Ran(c0, a + b, ok, c2)
  {
    hide Sane;
    ProcessIs(c0, a);
    ProcessAppend(c0, a, b);
    AcceptedAppend(c0, a, b);
  }

  lemma {:induction false} RanStops(c0: Cols, a: seq<Item>, c1: Cols, b: seq<Item>)
    requires Ran(c0, a, false, c1)
    ensures Ran(c0, a + b, false, c1)
  {
    hide Sane;
    ProcessAppend(c0, a, b);
    AcceptedAppend(c0, a, b);
  }

  /** The batch holds exactly the rows of the items. */
  ghost predicate Faithful(c: Cols, its: seq<Item>) {
    Aligned(c, |its|) && forall i :: 0 <= i < |its| ==> its[i].Item? && RowAt(c, |its|, i) == RowOf(its[i])
  }

  lemma {:induction false} AcceptsRoom(c: Cols, it: Item)
    requires Accepts(c, it)
    ensures it.Item? && Room(c, RowOf(it))
  {
  }

  lemma {:induction false} FaithfulSnoc(c: Cols, init: seq<Item>, it: Item)
    requires Faithful(c, init) && Accepts(c, it)
    ensures Faithful(Push(c, RowOf(it)), init + [it])
  {
    var n, row := |init|, RowOf(it);
    AcceptsRoom(c, it);
    hide Accepts, Aligned, RowAt, RowOf, Push, Room;
    PushedRow(c, n, row);
    var its := init + [it];
    assert |its| == n + 1;
    forall i | 0 <= i < n + 1
      ensures its[i].Item? && RowAt(Push(c, row), n + 1, i) == RowOf(its[i])
    {
      if i < n {
        assert RowAt(Push(c, row), n + 1, i) == RowAt(c, n, i);
        assert its[i] == init[i];
        assert RowAt(c, n, i) == RowOf(init[i]);
      } else {
        assert RowAt(Push(c, row), n + 1, n) == row;
        assert its[n] == it;
      }
    }
  }

  /** Starting from reset builders, accepted items become their rows. */
  lemma {:induction false} PushAllFaithful(its: seq<Item>)
    requires Accepted(EMPTY, its) == |its|
    ensures Faithful(PushAll(EMPTY, its), its)
    decreases |its|
  {
    hide Faithful;
    hide Accepts;
    if its == [] {
      NothingFaithful();
    } else {
      var n := |its| - 1;
      var init, it := its[..n], its[n];
      assert its == init + [it];
      hide PushAll;
      hide Accepted;
      hide RowOf;
      hide Push;
      AcceptedAppend(EMPTY, init, [it]);
      PushAllAppend(EMPTY, init, [it]);
      PushAllFaithful(init);
      LastStep(PushAll(EMPTY, init), it);
      FaithfulSnoc(PushAll(EMPTY, init), init, it);
    }
  }

  lemma {:induction false} NothingFaithful()
    ensures Faithful(EMPTY, []) && PushAll(EMPTY, []) == EMPTY
  {
    EmptyAligned();
  }

  lemma {:induction false} LastStep(c: Cols, it: Item)
    requires Accepted(c, [it]) == 1
    ensures Accepts(c, it) && PushAll(c, [it]) == Push(c, RowOf(it))
  {
    hide Push;
    hide RowOf;
    assert [it][1..] == [];
    assert PushAll(PushOne(c, it), []) == PushOne(c, it);
  }

  lemma {:induction false} EmptyAligned()
    ensures Aligned(EMPTY, 0) && Sane(EMPTY)
  {
  }

  // ---------------------------------------------------------------------
  // The converter
  // ---------------------------------------------------------------------

  predicate ResourceEven(r: ResourceCols) {
    |r.schemaUrls| == Rows(r.attrs) == |r.dropped| == |r.valid|
  }

  predicate ScopeEven(s: ScopeCols) {
    |s.names| == |s.versions| == Rows(s.attrs) == |s.dropped| == |s.valid|
  }

  /** `RecordBatch::try_new`: all columns have the same number of rows. */
  predicate SameLength(c: Cols, r: ResourceCols, s: ScopeCols) {
    var n := |c.times|;
    && |c.starts| == n && |r.valid| == n && |s.valid| == n && |c.schemaUrls| == n && |c.types| == n
    && |c.names| == n && |c.descriptions| == n && |c.units| == n && |c.temporalities| == n
    && |c.monotonics| == n && |c.flags| == n && Rows(c.attrs) == n && |c.number.valid| == n && |c.hist.valid| == n
  }

  /** What a call of `convert` returns and what it leaves in the builders. */
  datatype Converted = Converted(batch: Option<Cols>, cols: Cols)

  /** The end of `convert`: struct columns are finished, and reset, one by one; the
      first uneven one ends it. */
  function Finish(c: Cols): Converted {
    if !ResourceEven(c.resource) then Converted(None, c.(resource := NO_RESOURCE))
    else if !ScopeEven(c.scope) then Converted(None, c.(resource := NO_RESOURCE, scope := NO_SCOPE))
    else if !SameLength(c, c.resource, c.scope) then Converted(None, EMPTY)
    else Converted(Some(c), EMPTY)
  }

  /** A call on any builders, stale or not. */
  function Conversion(c: Cols, its: seq<Item>): Converted {
    if Accepted(c, its) == |its| then Finish(PushAll(c, its)) else Converted(None, Process(c, its))
  }

  class OtelToArrowConverter {
    var cols: Cols

    constructor ()
      ensures cols == EMPTY
    {
      cols := EMPTY;
    }

    /** One data point of `process_sum`, `process_gauge` or `process_histogram`. */
    method ProcessPoint(it: Item) returns (ok: bool)
      requires it.Item? && Sane(cols)
      modifies this
      ensures Sane(cols)
      ensures ok <==> Accepts(old(cols), it)
      ensures cols == if ok then Push(old(cols), RowOf(it)) else Refused(old(cols), it)
    {
      hide AttrsOk;
      hide AppendCells;
      hide PushList;
      hide CellsOf;
      hide PushNumber;
      hide PushHist;
      var a, data := it.metric.aggregation, it.point.data;
      if !TimeOk(TimeOf(a)) {
        return false;
      }
      cols := cols.(times := cols.times + [TimeOf(a)]);
      if StartOf(a).Some? && !TimeOk(StartOf(a).value) {
        return false;
      }
      cols := cols.(starts := cols.starts + [StartOf(a)]);
      var resource, scope, lists;
      ok, resource := AddResource(cols.resource, it.resource);
      cols := cols.(resource := resource);
      if !ok {
        return;
      }
      ok, scope := AddScope(cols.scope, it.scope);
      cols := cols.(scope := scope);
      if !ok {
        return;
      }
      cols := cols.(schemaUrls := cols.schemaUrls + [it.scope.schemaUrl],
                    types := cols.types + [KindOf(a)], names := cols.names + [it.metric.name],
                    descriptions := cols.descriptions + [it.metric.description], units := cols.units + [it.metric.unit]);
      if TemporalityOf(a) == Some(OtherTemporality) {
        return false;
      }
      cols := cols.(temporalities := cols.temporalities + [TemporalityCode(TemporalityOf(a))],
                    monotonics := cols.monotonics + [if a.Sum? then Some(a.monotonic) else None],
                    flags := cols.flags + [None]);
      ok, lists := AddAttributes(cols.attrs, it.point.attrs);
      cols := cols.(attrs := lists);
      if !ok {
        return;
      }
      if data.U64? && data.n > I64_MAX {
        return false;
      }
      cols := cols.(number := PushNumber(cols.number, NumberOf(data)), hist := PushHist(cols.hist, HistOf(data)));
    }

    /** `process_metric`: the data points in turn, up to the first refusal. */
    method ProcessMetric(m: Metric, res: Resource, scope: Scope) returns (ok: bool)
      requires Sane(cols)
      modifies this
      ensures Ran(old(cols), MetricItems(res, scope, m), ok, cols)
    {
      hide Ran;
      hide Sane;
      hide Push;
      hide RowOf;
      hide Accepts;
      ghost var c0 := cols;
      if m.aggregation.ExponentialHistogram? {
        UnsupportedRan(c0);
        return false;
      }
      var points, i := PointsOf(m.aggregation), 0;
      ghost var done: seq<Item> := [];
      NothingRan(c0);
      while i < |points|
        invariant 0 <= i <= |points| && Ran(c0, done, true, cols)
        invariant done + PointItems(res, scope, m, points[i..]) == MetricItems(res, scope, m)
      {
        var it := Item(res, scope, m, points[i]);
        ghost var c1, rest := cols, PointItems(res, scope, m, points[i + 1..]);
        assert points[i..][1..] == points[i + 1..];
        RanSane(c0, done, true, c1);
        ok := ProcessPoint(it);
        PointRan(c1, it, ok, cols);
        RanThen(c0, done, c1, [it], ok, cols);
        assert done + ([it] + rest) == (done + [it]) + rest;
        done := done + [it];
        if !ok {
          RanStops(c0, done, cols, rest);
          return;
        }
        i := i + 1;
      }
      assert done + [] == done;
      ok := true;
    }

    /** The inner loop of `convert`. */
    method ProcessScope(sm: ScopeMetrics, res: Resource) returns (ok: bool)
      requires Sane(cols)
      modifies this
      ensures Ran(old(cols), ScopeItems(res, sm.scope, sm.metrics), ok, cols)
    {
      hide Ran;
      hide Sane;
      hide MetricItems;
      ghost var c0 := cols;
      var i := 0;
      ghost var done: seq<Item> := [];
      NothingRan(c0);
      assert sm.metrics[0..] == sm.metrics;
      while i < |sm.metrics|
        invariant 0 <= i <= |sm.metrics| && Ran(c0, done, true, cols)
        invariant done + ScopeItems(res, sm.scope, sm.metrics[i..]) == ScopeItems(res, sm.scope, sm.metrics)
      {
        var m := sm.metrics[i];
        ghost var c1, rest, its := cols, ScopeItems(res, sm.scope, sm.metrics[i + 1..]), MetricItems(res, sm.scope, m);
        assert sm.metrics[i..][1..] == sm.metrics[i + 1..];
        RanSane(c0, done, true, c1);
        ok := ProcessMetric(m, res, sm.scope);
        RanThen(c0, done, c1, its, ok, cols);
        assert done + (its + rest) == (done + its) + rest;
        done := done + its;
        if !ok {
          RanStops(c0, done, cols, rest);
          return;
        }
        i := i + 1;
      }
      assert done + [] == done;
      ok := true;
    }

    /** The outer loop of `convert`. */
    method ProcessTree(t: ResourceMetrics) returns (ok: bool)
      requires Sane(cols)
      modifies this
      ensures Ran(old(cols), Items(t), ok, cols)
    {
      hide Ran;
      hide Sane;
      hide ScopeItems;
      ghost var c0 := cols;
      var i := 0;
      ghost var done: seq<Item> := [];
      NothingRan(c0);
      assert t.scopes[0..] == t.scopes;
      while i < |t.scopes|
        invariant 0 <= i <= |t.scopes| && Ran(c0, done, true, cols)
        invariant done + TreeItems(t.resource, t.scopes[i..]) == Items(t)
      {
        var sm := t.scopes[i];
        ghost var c1, rest, its := cols, TreeItems(t.resource, t.scopes[i + 1..]), ScopeItems(t.resource, sm.scope, sm.metrics);
        assert t.scopes[i..][1..] == t.scopes[i + 1..];
        RanSane(c0, done, true, c1);
        ok := ProcessScope(sm, t.resource);
        RanThen(c0, done, c1, its, ok, cols);
        assert done + (its + rest) == (done + its) + rest;
        done := done + its;
        if !ok {
          RanStops(c0, done, cols, rest);
          return;
        }
        i := i + 1;
      }
      assert done + [] == done;
      ok := true;
    }

    /** `convert`, on builders in any state.  With reset builders it succeeds exactly if
        every data point can be represented, the batch then holds one row per data
        point and nothing else, and the builders are reset again, so the next call is
        independent of this one. */
    method Convert(t: ResourceMetrics) returns (batch: Option<Cols>)
      requires Sane(cols)
      modifies this
      ensures Sane(cols)
      ensures Converted(batch, cols) == Conversion(old(cols), Items(t))
      ensures batch.Some? ==> cols == EMPTY
      ensures old(cols) == EMPTY ==> (batch.Some? <==> Accepted(EMPTY, Items(t)) == |Items(t)|)
      ensures old(cols) == EMPTY && batch.Some? ==> Faithful(batch.value, Items(t))
    {
      hide Items;
      hide Faithful;
      ghost var c0 := cols;
      var ok := ProcessTree(t);
      ProcessIs(c0, Items(t));
      hide PushAll;
      hide Process;
      hide Accepted;
      if !ok {
        return None;
      }
      ghost var full := cols;
      if c0 == EMPTY {
        PushAllFaithful(Items(t));
        FaithfulEven(full, Items(t));
      }
      EmptyAligned();
      var resource := cols.resource;
      cols := cols.(resource := NO_RESOURCE);
      if !ResourceEven(resource) {
        return None;
      }
      var scope := cols.scope;
      cols := cols.(scope := NO_SCOPE);
      if !ScopeEven(scope) {
        return None;
      }
      var rest := cols;
      cols := EMPTY;
      if !SameLength(rest, resource, scope) {
        return None;
      }
      batch := Some(rest.(resource := resource, scope := scope));
      assert batch.value == full;
    }
  }

  lemma {:induction false} FaithfulEven(c: Cols, its: seq<Item>)
    requires Faithful(c, its)
    ensures ResourceEven(c.resource) && ScopeEven(c.scope) && SameLength(c, c.resource, c.scope)
  {
    hide RowAt;
    hide RowOf;
  }

  lemma {:induction false} NothingRan(c: Cols)
    requires Sane(c)
    ensures Ran(c, [], true, c)
  {
  }

  lemma {:induction false} RanSane(c0: Cols, its: seq<Item>, ok: bool, c: Cols)
    requires Ran(c0, its, ok, c)
    ensures Sane(c)
  {
  }

  lemma {:induction false} UnsupportedRan(c0: Cols)
    requires Sane(c0)
    ensures Ran(c0, [Unsupported], false, c0)
  {
  }

  lemma {:induction false} PointRan(c0: Cols, it: Item, ok: bool, c: Cols)
    requires it.Item? && Sane(c) && (ok <==> Accepts(c0, it)) && c == if ok then Push(c0, RowOf(it)) else Refused(c0, it)
    ensures Ran(c0, [it], ok, c)
  {
    hide Sane;
    hide Accepts;
    hide RowOf;
    hide Refused;
    assert [it][1..] == [];
    assert Process(PushOne(c0, it), []) == PushOne(c0, it);
    assert Accepted(PushOne(c0, it), []) == 0;
  }

  method AddResource(r: ResourceCols, res: Resource) returns (ok: bool, r': ResourceCols)
    requires AttrsOk(r.attrs)
    ensures AttrsOk(r'.attrs)
    ensures ok <==> |r.attrs.keys| + |res.attrs| <= I32_MAX
    ensures ok ==> r' == ResourceCols(r.schemaUrls + [res.schemaUrl], PushList(r.attrs, CellsOf(res.attrs)), r.dropped + [None], r.valid + [true])
    ensures !ok ==> r' == r.(schemaUrls := r.schemaUrls + [res.schemaUrl], attrs := AppendCells(r.attrs, CellsOf(res.attrs)))
  {
    var lists;
    ok, lists := AddAttributes(r.attrs, res.attrs);
    r' := r.(schemaUrls := r.schemaUrls + [res.schemaUrl], attrs := lists);
    if ok {
      r' := r'.(dropped := r'.dropped + [None], valid := r'.valid + [true]);
    }
  }

  method AddScope(s: ScopeCols, scope: Scope) returns (ok: bool, s': ScopeCols)
    requires AttrsOk(s.attrs)
    ensures AttrsOk(s'.attrs)
    ensures ok <==> |s.attrs.keys| + |scope.attrs| <= I32_MAX
    ensures ok ==> s' == ScopeCols(s.names + [scope.name], s.versions + [scope.version], PushList(s.attrs, CellsOf(scope.attrs)),
                                   s.dropped + [None], s.valid + [true])
    ensures !ok ==> s' == s.(names := s.names + [scope.name], versions := s.versions + [scope.version],
                             attrs := AppendCells(s.attrs, CellsOf(scope.attrs)))
  {
    var lists;
    ok, lists := AddAttributes(s.attrs, scope.attrs);
    s' := s.(names := s.names + [scope.name], versions := s.versions + [scope.version], attrs := lists);
    if ok {
      s' := s'.(dropped := s'.dropped + [None], valid := s'.valid + [true]);
    }
  }

  // ---------------------------------------------------------------------
  // After a failed call
  // ---------------------------------------------------------------------

  /** A refused item leaves the columns as they were, if and only if it is refused
      before its first append; otherwise the times are one cell ahead of the last
      column. */
  lemma {:induction false} RefusedCleanIff(c: Cols, it: Item)
    ensures Refused(c, it) == c <==> RefusedAtOnce(it)
    ensures !RefusedAtOnce(it) ==> |Refused(c, it).times| == |c.times| + 1 && Refused(c, it).hist == c.hist
  {
    hide RowOf;
    hide PushResource;
    hide PushScope;
    hide AppendCells;
    hide PushList;
  }

  /** What a failed call on reset builders leaves behind: the rows before the refused
      item, exactly, if and only if that item is refused at once. */
  lemma {:induction false} LeftBehindIff(its: seq<Item>)
    requires Accepted(EMPTY, its) < |its|
    ensures var n := Accepted(EMPTY, its);
      && Conversion(EMPTY, its).batch == None
      && (Conversion(EMPTY, its).cols == PushAll(EMPTY, its[..n]) <==> RefusedAtOnce(its[n]))
  {
    hide Accepted;
    hide PushAll;
    hide Process;
    hide Refused;
    ProcessIs(EMPTY, its);
    RefusedCleanIff(PushAll(EMPTY, its[..Accepted(EMPTY, its)]), its[Accepted(EMPTY, its)]);
  }

  lemma {:induction false} AcceptedPrefix(c: Cols, its: seq<Item>)
    ensures var n := Accepted(c, its); Accepted(c, its[..n]) == n
    decreases |its|
  {
    hide Accepts;
    hide PushOne;
    if its != [] && Accepts(c, its[0]) {
      var n := Accepted(c, its);
      AcceptedPrefix(PushOne(c, its[0]), its[1..]);
      assert its[..n][1..] == its[1..][..n - 1];
      assert its[..n][0] == its[0];
    }
  }

  /** Accepted items lengthen the first and the last column alike. */
  lemma {:induction false} PushAllLengths(c: Cols, its: seq<Item>)
    requires Accepted(c, its) == |its|
    ensures |PushAll(c, its).times| == |c.times| + |its| && |PushAll(c, its).hist.valid| == |c.hist.valid| + |its|
    decreases |its|
  {
    if its != [] {
      PushOneLengths(c, its[0]);
      hide PushOne;
      hide Accepts;
      PushAllLengths(PushOne(c, its[0]), its[1..]);
    }
  }

  lemma {:induction false} PushOneLengths(c: Cols, it: Item)
    requires Accepts(c, it)
    ensures |PushOne(c, it).times| == |c.times| + 1 && |PushOne(c, it).hist.valid| == |c.hist.valid| + 1
  {
  }

  /** The builders a failed call leaves behind. */
  lemma {:induction false} StaleIs(a: seq<Item>)
    requires Accepted(EMPTY, a) < |a|
    ensures var n := Accepted(EMPTY, a);
      var before, stale := PushAll(EMPTY, a[..n]), Conversion(EMPTY, a).cols;
      && Accepted(EMPTY, a[..n]) == n
      && (RefusedAtOnce(a[n]) ==> stale == before)
      && (!RefusedAtOnce(a[n]) ==> |stale.times| == |stale.hist.valid| + 1)
  {
    var n := Accepted(EMPTY, a);
    AcceptedPrefix(EMPTY, a);
    ProcessIs(EMPTY, a);
    PushAllLengths(EMPTY, a[..n]);
    hide PushAll;
    hide Process;
    hide Refused;
    hide Accepted;
    hide RefusedAtOnce;
    RefusedCleanIff(PushAll(EMPTY, a[..n]), a[n]);
  }

  lemma {:induction false} NextAfterPartial(stale: Cols, b: seq<Item>)
    requires |stale.times| == |stale.hist.valid| + 1 && Accepted(stale, b) == |b|
    ensures Conversion(stale, b).batch == None
  {
    PushAllLengths(stale, b);
    hide PushAll;
    hide Accepted;
  }

  lemma {:induction false} NextAfterClean(first: seq<Item>, b: seq<Item>)
    requires Accepted(EMPTY, first) == |first| && Accepted(PushAll(EMPTY, first), b) == |b|
    ensures var next := Conversion(PushAll(EMPTY, first), b);
      next.batch.Some? && next.cols == EMPTY && Faithful(next.batch.value, first + b)
  {
    PushAllAppend(EMPTY, first, b);
    AcceptedAppend(EMPTY, first, b);
    hide PushAll;
    hide Accepted;
    hide Faithful;
    PushAllFaithful(first + b);
    FaithfulEven(PushAll(EMPTY, first + b), first + b);
  }

  /** The next call after a failed one, on data it could represent: it succeeds if and
      only if the first call's item was refused at once, and its batch then starts
      with the rows the failed call had appended; otherwise the columns are uneven and
      the call is refused. */
  lemma {:induction false} NextCallIff(a: seq<Item>, b: seq<Item>)
    requires Accepted(EMPTY, a) < |a|
    requires Accepted(Conversion(EMPTY, a).cols, b) == |b|
    ensures var n := Accepted(EMPTY, a);
      var next := Conversion(Conversion(EMPTY, a).cols, b);
      && (next.batch.Some? <==> RefusedAtOnce(a[n]))
      && (next.batch.Some? ==> Faithful(next.batch.value, a[..n] + b))
  {
    hide Conversion;
    hide Accepted;
    hide PushAll;
    hide Faithful;
    hide RefusedAtOnce;
    var n := Accepted(EMPTY, a);
    StaleIs(a);
    if RefusedAtOnce(a[n]) {
      NextAfterClean(a[..n], b);
    } else {
      NextAfterPartial(Conversion(EMPTY, a).cols, b);
    }
  }

  /** So the next call gets its own rows, and no others, if and only if the failed call
      refused its very first item at once. */
  lemma {:induction false} NextCallCleanIff(a: seq<Item>, b: seq<Item>)
    requires Accepted(EMPTY, a) < |a|
    requires Accepted(Conversion(EMPTY, a).cols, b) == |b|
    ensures var next := Conversion(Conversion(EMPTY, a).cols, b);
      (next.batch.Some? && Faithful(next.batch.value, b)) <==> RefusedAtOnce(a[0])
  {
    if RefusedAtOnce(a[0]) {
      FirstRefused(a);
    }
    NextCallIff(a, b);
    hide Conversion;
    hide Accepted;
    hide RefusedAtOnce;
    var n := Accepted(EMPTY, a);
    var next := Conversion(Conversion(EMPTY, a).cols, b);
    if next.batch.Some? {
      FaithfulLength(next.batch.value, a[..n] + b);
      if n == 0 {
        assert a[..0] + b == b;
      } else if Faithful(next.batch.value, b) {
        FaithfulLength(next.batch.value, b);
      }
    }
  }

  lemma {:induction false} FaithfulLength(c: Cols, its: seq<Item>)
    requires Faithful(c, its)
    ensures |c.times| == |its|
  {
  }

  lemma {:induction false} FirstRefused(a: seq<Item>)
    requires a != [] && RefusedAtOnce(a[0])
    ensures Accepted(EMPTY, a) == 0
  {
  }

  // ---------------------------------------------------------------------
  // The two failures, at concrete trees
  // ---------------------------------------------------------------------

  const BARE_RESOURCE: Resource := Resource(None, [])
  const BARE_SCOPE: Scope := Scope("scope", None, [], None)
  const ONE: DataPoint := DataPoint([], I64(1))
  const GAUGE: Metric := Metric("gauge", "", "", Gauge(0, None, [ONE]))
  const EXPONENTIAL: Metric := Metric("exponential", "", "", ExponentialHistogram)
  const EARLY: Metric := Metric("early", "", "", Sum(0, -1, Delta, true, [ONE]))

  function TreeOf(ms: seq<Metric>): ResourceMetrics {
    ResourceMetrics(BARE_RESOURCE, [ScopeMetrics(BARE_SCOPE, ms)])
  }

  function Bare(m: Metric): Item {
    Item(BARE_RESOURCE, BARE_SCOPE, m, ONE)
  }

  lemma {:induction false} TreeItemsIs(ms: seq<Metric>)
    ensures Items(TreeOf(ms)) == ScopeItems(BARE_RESOURCE, BARE_SCOPE, ms)
  {
    var t := TreeOf(ms);
    assert t.scopes[1..] == [];
    assert TreeItems(BARE_RESOURCE, t.scopes) == ScopeItems(BARE_RESOURCE, BARE_SCOPE, ms) + TreeItems(BARE_RESOURCE, []);
  }

  lemma {:induction false} OneMetric(m: Metric)
    requires PointsOf(m.aggregation) == [ONE]
    ensures MetricItems(BARE_RESOURCE, BARE_SCOPE, m) == [Bare(m)]
    ensures Items(TreeOf([m])) == [Bare(m)]
  {
    TreeItemsIs([m]);
    assert [ONE][1..] == [] && [m][1..] == [];
    assert PointItems(BARE_RESOURCE, BARE_SCOPE, m, [ONE]) == [Bare(m)] + PointItems(BARE_RESOURCE, BARE_SCOPE, m, []);
    assert ScopeItems(BARE_RESOURCE, BARE_SCOPE, [m]) == [Bare(m)] + ScopeItems(BARE_RESOURCE, BARE_SCOPE, []);
  }

  /** A row without attributes is accepted by columns without attributes. */
  ghost predicate NoKeys(c: Cols) {
    c.resource.attrs.keys == [] && c.scope.attrs.keys == [] && c.attrs.keys == []
  }

  lemma {:induction false} GaugeAccepted(c: Cols)
    requires NoKeys(c)
    ensures Accepted(c, [Bare(GAUGE)]) == 1 && NoKeys(PushAll(c, [Bare(GAUGE)]))
  {
    assert Accepts(c, Bare(GAUGE));
    assert [Bare(GAUGE)][1..] == [];
    assert CellsOf([]) == [];
    assert Accepted(PushOne(c, Bare(GAUGE)), []) == 0;
    assert PushAll(PushOne(c, Bare(GAUGE)), []) == PushOne(c, Bare(GAUGE));
  }

  /** Stale rows: a tree with an accepted gauge and an exponential histogram fails; the
      next call, on a tree with one data point, returns a batch of two rows. */
  lemma {:induction false} StaleRowsAppear()
    ensures Conversion(EMPTY, Items(TreeOf([GAUGE, EXPONENTIAL]))).batch == None
    ensures var next := Conversion(Conversion(EMPTY, Items(TreeOf([GAUGE, EXPONENTIAL]))).cols, Items(TreeOf([GAUGE])));
      next.batch.Some? && |next.batch.value.times| == 2
    ensures |Items(TreeOf([GAUGE]))| == 1
  {
    var g := Bare(GAUGE);
    var a, b := [g, Unsupported], [g];
    OneMetric(GAUGE);
    TreeItemsIs([GAUGE, EXPONENTIAL]);
    assert [GAUGE, EXPONENTIAL][1..] == [EXPONENTIAL] && [EXPONENTIAL][1..] == [];
    assert ScopeItems(BARE_RESOURCE, BARE_SCOPE, [EXPONENTIAL]) == [Unsupported] + ScopeItems(BARE_RESOURCE, BARE_SCOPE, []);
    assert Items(TreeOf([GAUGE, EXPONENTIAL])) == [g] + [Unsupported] == a;
    GaugeAccepted(EMPTY);
    GaugeAccepted(PushAll(EMPTY, b));
    hide PushAll;
    hide Items;
    hide NoKeys;
    hide Conversion;
    AcceptedAppend(EMPTY, [g], [Unsupported]);
    assert Accepted(PushAll(EMPTY, b), [Unsupported]) == 0;
    assert Accepted(EMPTY, a) == 1 && a[..1] == [g];
    LeftBehindIff(a);
    NextCallIff(a, b);
    FaithfulLength(Conversion(Conversion(EMPTY, a).cols, b).batch.value, a[..1] + b);
  }

  /** A partial row: a tree whose only data point has a start time before the epoch
      fails after its time has been appended; the next call, on a tree it would have
      converted, is refused. */
  lemma {:induction false} PartialRowRefuses()
    ensures Conversion(EMPTY, Items(TreeOf([EARLY]))).batch == None
    ensures Conversion(EMPTY, Items(TreeOf([GAUGE]))).batch.Some?
    ensures Conversion(Conversion(EMPTY, Items(TreeOf([EARLY]))).cols, Items(TreeOf([GAUGE]))).batch == None
  {
    var a, b := [Bare(EARLY)], [Bare(GAUGE)];
    OneMetric(EARLY);
    OneMetric(GAUGE);
    EarlyStops();
    GaugeAccepted(EMPTY);
    GaugeAccepted(Conversion(EMPTY, a).cols);
    assert PushAll(EMPTY, []) == EMPTY && Accepted(EMPTY, []) == 0;
    hide Conversion;
    hide PushAll;
    hide Accepted;
    hide Items;
    hide RefusedAtOnce;
    NextCallIff(a, b);
    NextAfterClean([], b);
  }

  lemma {:induction false} EarlyStops()
    ensures Accepted(EMPTY, [Bare(EARLY)]) == 0 && Conversion(EMPTY, [Bare(EARLY)]).batch == None
    ensures NoKeys(Conversion(EMPTY, [Bare(EARLY)]).cols) && !RefusedAtOnce(Bare(EARLY))
  {
    assert !Accepts(EMPTY, Bare(EARLY));
    assert Process(EMPTY, [Bare(EARLY)]) == Refused(EMPTY, Bare(EARLY));
  }
}
