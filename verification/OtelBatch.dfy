/** A finished batch read on its own terms: which row a data point of the tree gets,
    and what every column says of it, with the codes of the schema written out. */
module OtelBatch {
  import opened Prelude
  import opened Otel
  import opened OtelConverter

  // ---------------------------------------------------------------------
  // What one row's columns say
  // ---------------------------------------------------------------------

  /** Child `j` of an attribute list: the key, the type code, the value in the column
      of its type and null in the others. */
  ghost predicate AttrSays(a: AttrCols, j: nat, kv: KeyValue)
    requires Even(a) && j < |a.keys|
  {
    var v := kv.value;
    && a.keys[j] == kv.key && a.valid[j]
    && a.strs[j] == (if v.AStr? then Some(v.s) else None)
    && a.ints[j] == (if v.AInt? then Some(v.i) else None)
    && a.doubles[j] == (if v.ADouble? then Some(v.x) else None)
    && a.bools[j] == (if v.ABool? then Some(v.b) else None)
    && a.bytes[j] == (if v.AArray? then Some("") else None)
    && a.sers[j] == None
    && (a.types[j] == 1 <==> v.AStr?) && (a.types[j] == 2 <==> v.AInt?) && (a.types[j] == 3 <==> v.ADouble?)
    && (a.types[j] == 4 <==> v.ABool?) && (a.types[j] == 7 <==> v.AArray?) && (a.types[j] == 255 <==> v.AOther?)
  }

  /** Row `i` of a list column is exactly the attributes `kvs`, in order. */
  ghost predicate ListSays(a: AttrCols, i: nat, kvs: seq<KeyValue>)
    requires AttrsOk(a) && i < Rows(a)
  {
    && a.offsets[i + 1] == a.offsets[i] + |kvs|
    && forall j :: 0 <= j < |kvs| ==> AttrSays(a, a.offsets[i] + j, kvs[j])
  }

  ghost predicate AggregationSays(c: Cols, i: nat, a: Aggregation)
    requires i < |c.times| && i < |c.starts| && i < |c.types| && i < |c.temporalities| && i < |c.monotonics|
  {
    match a
    case Gauge(time, start, _) =>
      && c.times[i] == time && c.starts[i] == start && c.types[i] == 1
      && c.temporalities[i] == None && c.monotonics[i] == None
    case Sum(time, start, temporality, monotonic, _) =>
      && c.times[i] == time && c.starts[i] == Some(start) && c.types[i] == 2
      && (temporality.Delta? ==> c.temporalities[i] == Some(1))
      && (temporality.Cumulative? ==> c.temporalities[i] == Some(2))
      && c.monotonics[i] == Some(monotonic)
    case Histogram(time, start, temporality, _) =>
      && c.times[i] == time && c.starts[i] == Some(start) && c.types[i] == 3
      && (temporality.Delta? ==> c.temporalities[i] == Some(1))
      && (temporality.Cumulative? ==> c.temporalities[i] == Some(2))
      && c.monotonics[i] == None
    case ExponentialHistogram => true
  }

  ghost predicate DataSays(c: Cols, i: nat, d: Data)
    requires NumberIs(c.number, |c.number.valid|) && i < |c.number.valid|
    requires HistIs(c.hist, |c.hist.valid|) && i < |c.hist.valid|
  {
    match d
    case U64(n) => c.number.valid[i] && c.number.ints[i] == Some(n) && c.number.doubles[i] == None && !c.hist.valid[i]
    case I64(n) => c.number.valid[i] && c.number.ints[i] == Some(n) && c.number.doubles[i] == None && !c.hist.valid[i]
    case F64(x) => c.number.valid[i] && c.number.ints[i] == None && c.number.doubles[i] == Some(x) && !c.hist.valid[i]
    case Hist(count, sum, min, max, buckets, bounds) =>
      && !c.number.valid[i] && c.hist.valid[i]
      && c.hist.counts[i] == Some(count) && c.hist.sums[i] == Some(sum)
      && c.hist.mins[i] == min && c.hist.maxs[i] == max
      && c.hist.buckets[i] == Some(buckets) && c.hist.bounds[i] == Some(bounds)
  }

  /** Row `i` of a batch of `n` rows is the data point `p` of metric `m`. */
  ghost predicate RowSays(c: Cols, n: nat, i: nat, res: Resource, scope: Scope, m: Metric, p: DataPoint)
    requires Aligned(c, n) && i < n
  {
    && c.resource.schemaUrls[i] == res.schemaUrl && ListSays(c.resource.attrs, i, res.attrs)
    && c.scope.names[i] == scope.name && c.scope.versions[i] == scope.version
    && ListSays(c.scope.attrs, i, scope.attrs) && c.schemaUrls[i] == scope.schemaUrl
    && c.names[i] == m.name && c.descriptions[i] == m.description && c.units[i] == m.unit
    && AggregationSays(c, i, m.aggregation)
    && ListSays(c.attrs, i, p.attrs)
    && DataSays(c, i, p.data)
  }

  lemma {:induction false} ListFields(a: AttrCols, i: nat, kvs: seq<KeyValue>)
    requires AttrsOk(a) && i < Rows(a) && ListAt(a, i) == CellsOf(kvs)
    ensures ListSays(a, i, kvs)
  {
    assert |ListAt(a, i)| == |kvs|;
    forall j | 0 <= j < |kvs|
      ensures AttrSays(a, a.offsets[i] + j, kvs[j])
    {
      assert ListAt(a, i)[j] == CellAt(a, a.offsets[i] + j);
      assert CellsOf(kvs)[j] == CellOf(kvs[j]);
    }
  }

  lemma {:induction false} DataFields(c: Cols, i: nat, d: Data)
    requires NumberIs(c.number, |c.number.valid|) && i < |c.number.valid|
    requires HistIs(c.hist, |c.hist.valid|) && i < |c.hist.valid|
    requires NumberAt(c.number, i) == NumberOf(d) && HistAt(c.hist, i) == HistOf(d)
    ensures DataSays(c, i, d)
  {
    if c.hist.valid[i] {
      assert HistAt(c.hist, i).value.count == c.hist.counts[i].value;
    }
  }

  /** Every row of a batch that holds the items says what its item says. */
  lemma {:induction false} BatchFields(c: Cols, its: seq<Item>, i: nat)
    requires Faithful(c, its) && i < |its|
    ensures its[i].Item? && RowSays(c, |its|, i, its[i].resource, its[i].scope, its[i].metric, its[i].point)
  {
    var it := its[i];
    assert RowAt(c, |its|, i) == RowOf(it);
    hide ListAt, CellsOf, NumberAt, HistAt, NumberOf, HistOf, ListSays, DataSays;
    ListFields(c.resource.attrs, i, it.resource.attrs);
    ListFields(c.scope.attrs, i, it.scope.attrs);
    ListFields(c.attrs, i, it.point.attrs);
    DataFields(c, i, it.point.data);
  }

  // ---------------------------------------------------------------------
  // Which row a data point gets
  // ---------------------------------------------------------------------

  function Size(m: Metric): nat {
    if m.aggregation.ExponentialHistogram? then 1 else |m.aggregation.points|
  }

  function MetricsBefore(ms: seq<Metric>, m: nat): nat
    requires m <= |ms|
  {
    if m == 0 then 0 else MetricsBefore(ms, m - 1) + Size(ms[m - 1])
  }

  function ScopesBefore(scopes: seq<ScopeMetrics>, s: nat): nat
    requires s <= |scopes|
  {
    if s == 0 then 0 else ScopesBefore(scopes, s - 1) + MetricsBefore(scopes[s - 1].metrics, |scopes[s - 1].metrics|)
  }

  lemma {:induction false} PointItemAt(res: Resource, scope: Scope, m: Metric, ps: seq<DataPoint>)
    ensures |PointItems(res, scope, m, ps)| == |ps|
    ensures forall p :: 0 <= p < |ps| ==> PointItems(res, scope, m, ps)[p] == Item(res, scope, m, ps[p])
  {
    if ps != [] {
      PointItemAt(res, scope, m, ps[1..]);
    }
  }

  lemma {:induction false} MetricsShift(ms: seq<Metric>, m: nat)
    requires 0 < m <= |ms|
    ensures MetricsBefore(ms, m) == Size(ms[0]) + MetricsBefore(ms[1..], m - 1)
  {
    if m > 1 {
      MetricsShift(ms, m - 1);
    }
  }

  lemma {:induction false} MetricItemAt(res: Resource, scope: Scope, ms: seq<Metric>, m: nat)
    requires m <= |ms|
    ensures MetricsBefore(ms, m) <= |ScopeItems(res, scope, ms)|
    ensures m == |ms| ==> MetricsBefore(ms, m) == |ScopeItems(res, scope, ms)|
    ensures m < |ms| ==> MetricItems(res, scope, ms[m]) <= ScopeItems(res, scope, ms)[MetricsBefore(ms, m)..]
    decreases |ms|
  {
    if ms != [] {
      MetricSize(res, scope, ms[0]);
      hide MetricItems, Size;
      if m > 0 {
        MetricsShift(ms, m);
        MetricItemAt(res, scope, ms[1..], m - 1);
        var own, rest := MetricItems(res, scope, ms[0]), ScopeItems(res, scope, ms[1..]);
        assert (own + rest)[MetricsBefore(ms, m)..] == rest[MetricsBefore(ms[1..], m - 1)..];
      }
    }
  }

  lemma {:induction false} MetricSize(res: Resource, scope: Scope, m: Metric)
    ensures |MetricItems(res, scope, m)| == Size(m)
  {
    PointItemAt(res, scope, m, PointsOf(m.aggregation));
  }

  lemma {:induction false} ScopesShift(scopes: seq<ScopeMetrics>, s: nat)
    requires 0 < s <= |scopes|
    ensures ScopesBefore(scopes, s) == MetricsBefore(scopes[0].metrics, |scopes[0].metrics|) + ScopesBefore(scopes[1..], s - 1)
  {
    if s > 1 {
      ScopesShift(scopes, s - 1);
    }
  }

  lemma {:induction false} ScopeItemAt(res: Resource, scopes: seq<ScopeMetrics>, s: nat)
    requires s <= |scopes|
    ensures ScopesBefore(scopes, s) <= |TreeItems(res, scopes)|
    ensures s == |scopes| ==> ScopesBefore(scopes, s) == |TreeItems(res, scopes)|
    ensures s < |scopes| ==>
      ScopeItems(res, scopes[s].scope, scopes[s].metrics) <= TreeItems(res, scopes)[ScopesBefore(scopes, s)..]
    decreases |scopes|
  {
    if scopes != [] {
      var own, rest := ScopeItems(res, scopes[0].scope, scopes[0].metrics), TreeItems(res, scopes[1..]);
      MetricItemAt(res, scopes[0].scope, scopes[0].metrics, |scopes[0].metrics|);
      hide ScopeItems, MetricsBefore;
      if s > 0 {
        ScopesShift(scopes, s);
        ScopeItemAt(res, scopes[1..], s - 1);
        assert (own + rest)[ScopesBefore(scopes, s)..] == rest[ScopesBefore(scopes[1..], s - 1)..];
      }
    }
  }

  /** The row of data point `p` of metric `m` of scope `s`: scopes, metrics and points
      come in the order of the tree. */
  function RowNumber(t: ResourceMetrics, s: nat, m: nat, p: nat): nat
    requires s < |t.scopes| && m < |t.scopes[s].metrics|
  {
    ScopesBefore(t.scopes, s) + MetricsBefore(t.scopes[s].metrics, m) + p
  }

  lemma {:induction false} ItemAt(t: ResourceMetrics, s: nat, m: nat, p: nat)
    requires s < |t.scopes| && m < |t.scopes[s].metrics| && !t.scopes[s].metrics[m].aggregation.ExponentialHistogram?
    requires p < |t.scopes[s].metrics[m].aggregation.points|
    ensures RowNumber(t, s, m, p) < |Items(t)|
    ensures Items(t)[RowNumber(t, s, m, p)] ==
      Item(t.resource, t.scopes[s].scope, t.scopes[s].metrics[m], t.scopes[s].metrics[m].aggregation.points[p])
  {
    var sm := t.scopes[s];
    var metric := sm.metrics[m];
    ScopeItemAt(t.resource, t.scopes, s);
    MetricItemAt(t.resource, sm.scope, sm.metrics, m);
    PointItemAt(t.resource, sm.scope, metric, metric.aggregation.points);
    hide ScopesBefore, MetricsBefore, TreeItems, ScopeItems, PointItems;
    var xs, ys := Items(t), ScopeItems(t.resource, sm.scope, sm.metrics);
    var zs := MetricItems(t.resource, sm.scope, metric);
    assert zs[p] == ys[MetricsBefore(sm.metrics, m)..][p] == ys[MetricsBefore(sm.metrics, m) + p];
    assert ys[MetricsBefore(sm.metrics, m) + p] == xs[ScopesBefore(t.scopes, s)..][MetricsBefore(sm.metrics, m) + p];
  }

  /** The batch of a tree has one row for each data point, in the tree's order, and its
      columns say what the tree says there. */
  lemma {:induction false} TreeRow(c: Cols, t: ResourceMetrics, s: nat, m: nat, p: nat)
    requires Faithful(c, Items(t))
    requires s < |t.scopes| && m < |t.scopes[s].metrics|
    requires !t.scopes[s].metrics[m].aggregation.ExponentialHistogram?
    requires p < |t.scopes[s].metrics[m].aggregation.points|
    ensures |Items(t)| == ScopesBefore(t.scopes, |t.scopes|) && RowNumber(t, s, m, p) < |Items(t)|
    ensures RowSays(c, |Items(t)|, RowNumber(t, s, m, p), t.resource, t.scopes[s].scope,
                    t.scopes[s].metrics[m], t.scopes[s].metrics[m].aggregation.points[p])
  {
    hide RowSays, RowAt, RowOf, RowNumber;
    ScopeItemAt(t.resource, t.scopes, |t.scopes|);
    ItemAt(t, s, m, p);
    BatchFields(c, Items(t), RowNumber(t, s, m, p));
  }

  // ---------------------------------------------------------------------
  // Columns that carry no data
  // ---------------------------------------------------------------------

  /** Flags and dropped-attribute counts are null, structs and lists are valid. */
  ghost predicate Blank(c: Cols) {
    && (forall i :: 0 <= i < |c.flags| ==> c.flags[i] == None)
    && (forall i :: 0 <= i < |c.resource.dropped| ==> c.resource.dropped[i] == None)
    && (forall i :: 0 <= i < |c.scope.dropped| ==> c.scope.dropped[i] == None)
    && (forall i :: 0 <= i < |c.resource.valid| ==> c.resource.valid[i])
    && (forall i :: 0 <= i < |c.scope.valid| ==> c.scope.valid[i])
    && (forall i :: 0 <= i < |c.attrs.listValid| ==> c.attrs.listValid[i])
    && (forall i :: 0 <= i < |c.resource.attrs.listValid| ==> c.resource.attrs.listValid[i])
    && (forall i :: 0 <= i < |c.scope.attrs.listValid| ==> c.scope.attrs.listValid[i])
  }

  lemma {:induction false} CellsKeepLists(a: AttrCols, cs: seq<AttrCell>)
    ensures AppendCells(a, cs).listValid == a.listValid
    decreases |cs|
  {
    if cs != [] {
      CellsKeepLists(a, cs[..|cs| - 1]);
    }
  }

  lemma {:induction false} PushBlank(c: Cols, row: Row)
    requires Blank(c)
    ensures Blank(Push(c, row))
  {
    CellsKeepLists(c.attrs, row.attrs);
    CellsKeepLists(c.resource.attrs, row.resourceAttrs);
    CellsKeepLists(c.scope.attrs, row.scopeAttrs);
    hide AppendCells, PushNumber, PushHist;
  }

  lemma {:induction false} BatchBlank(c: Cols, its: seq<Item>)
    requires Blank(c)
    ensures Blank(PushAll(c, its))
    decreases |its|
  {
    hide Blank, Push;
    if its != [] {
      if its[0].Item? {
        PushBlank(c, RowOf(its[0]));
      }
      BatchBlank(PushOne(c, its[0]), its[1..]);
    }
  }

  /** What a finished batch says in the columns that carry no data. */
  lemma {:induction false} ConvertedBlank(its: seq<Item>)
    ensures Conversion(EMPTY, its).batch.Some? ==> Blank(Conversion(EMPTY, its).batch.value)
  {
    BatchBlank(EMPTY, its);
    hide Blank, PushAll, Accepted, Process;
  }
}
