/** From storage to the target table over whole runs: initialization writes the
    first batches; then, segment after segment, batches are reserved and read by
    the table tasks, coalesced, split and written under the permits.  Whatever the
    budgets, schedules, row target, chunk size and permits, the target ends up as
    if the stored rows had been applied one by one in ID order, and the ledgers
    count exactly those rows, at every pause. */
module EndToEnd {
  import opened Prelude
  import opened WorkPlan
  import opened Records
  import opened Reader
  import RunSegment
  import SegmentSafety
  import SegmentCounts
  import SegmentProgress
  import SegmentOutcome
  import Reference
  import Pipeline
  import opened Coalesce
  import opened Replay
  import opened Target
  import W = Writer

  type Listing = map<Table, seq<nat>>

  /** Everything a run is configured with. */
  datatype Rig = Rig(read: Source, target: nat, caps: W.Caps, us: seq<Table>,
                     schema: Table -> Schema, sort: seq<Row> -> seq<Row>)

  ghost predicate RigOk(c: Rig) {
    W.CapsOk(c.caps) && Sorts(c.sort) && EnvOk(EnvFor(c, None)) && Distinct(c.us)
  }

  function EnvFor(c: Rig, max: Option<nat>): Env {
    Env(c.read, c.target, max)
  }

  /** The rows stored under a list of batch IDs. */
  function Stream(read: Source, t: Table, ids: seq<nat>): seq<Row> {
    if ids == [] then []
    else (if read(t, ids[0]).Some? then Flat(read(t, ids[0]).value) else []) + Stream(read, t, ids[1..])
  }

  // ---------------------------------------------------------------------
  // Runs
  // ---------------------------------------------------------------------

  /** One schedule of the writers. */
  datatype Write = Write(begin: W.Sinks, steps: seq<W.Step>, stop: W.Sinks)

  ghost predicate IsWrite(c: Rig, work: map<Table, seq<seq<OpSegment>>>, w: Write) {
    && W.Starts(c.us, work, w.begin)
    && W.Reaches(c.caps, c.us, w.begin, w.steps, w.stop)
    && forall t :: t in w.stop.jobs ==> W.Done(w.stop.jobs[t])
  }

  /** Every table's coalesced batches, split into segments. */
  function Split(c: Rig, batches: Table -> seq<RecordBatch>): map<Table, seq<seq<OpSegment>>> {
    map t | t in c.us :: W.SplitAll(c.schema(t), c.sort, batches(t))
  }

  function FirstOf(listing: Listing, t: Table): seq<nat> {
    if t in listing then Pipeline.First(listing[t]) else []
  }

  /** What `initialize` writes: the coalesced first batch of every table. */
  function FirstBatches(c: Rig, listing: Listing): Table -> seq<RecordBatch>
    requires 0 < c.target
  {
    (t: Table) => Coalesced(c.target, RowsOf(EnvFor(c, None), t, FirstOf(listing, t)))
  }

  /** The ledgers are zero. */
  ghost predicate Fresh(s: W.Sinks) {
    s.ingest == 0 && forall t :: t in s.jobs ==> s.jobs[t].net == 0
  }

  ghost predicate IsInit(c: Rig, listing: Listing, w: Write)
    requires 0 < c.target
  {
    IsWrite(c, Split(c, FirstBatches(c, listing)), w) && Fresh(w.begin)
  }

  /** The coalesced batches of a table's successive reads. */
  function Batches(e: Env, t: Table, groups: seq<seq<nat>>): seq<RecordBatch>
    requires 0 < e.target
  {
    if groups == [] then []
    else Coalesced(e.target, RowsOf(e, t, groups[0])) + Batches(e, t, groups[1..])
  }

  /** What a segment writes. */
  function ReadBatches(e: Env, out: map<Table, seq<seq<nat>>>): Table -> seq<RecordBatch>
    requires 0 < e.target
  {
    (t: Table) => Batches(e, t, RunSegment.Out(out, t))
  }

  /** One schedule of a segment's tasks and one of its writers. */
  datatype Trace = Trace(acts: seq<RunSegment.Action>, end: RunSegment.Segment, write: Write)

  ghost predicate IsTrace(c: Rig, limit: Option<nat>, P: Plan, F: set<Table>, tr: Trace)
    requires 0 < c.target
  {
    var e := EnvFor(c, RunSegment.Boundary(P, limit));
    && RunSegment.Reaches(e, limit, RunSegment.Begin(P, F), tr.acts, tr.end)
    && tr.end.status != RunSegment.Running
    && IsWrite(c, Split(c, ReadBatches(e, tr.end.out)), tr.write)
  }

  /** The counters live in the pipeline: a segment goes on from where they stand. */
  ghost predicate Carries(before: W.Sinks, begin: W.Sinks) {
    && begin.ingest == before.ingest
    && forall t :: t in begin.jobs ==> t in before.jobs && begin.jobs[t].net == before.jobs[t].net
  }

  /** Segments one after the other, each from where the last one stopped. */
  ghost predicate IsRun(c: Rig, limits: seq<Option<nat>>, P: Plan, F: set<Table>, before: W.Sinks, run: seq<Trace>)
    requires 0 < c.target
    decreases |limits|
  {
    |run| == |limits| &&
    (limits != [] ==>
      && limits[0] != Some(0)
      && IsTrace(c, limits[0], P, F, run[0]) && Carries(before, run[0].write.begin)
      && IsRun(c, limits[1..], run[0].end.plan, run[0].end.finished, run[0].write.stop, run[1..]))
  }

  /** The plan that `run` builds after initialization. */
  ghost predicate PlanFor(c: Rig, listing: Listing, P: Plan) {
    Wf(P) && forall t :: t in c.us ==> t in listing && Ids(P, t) == Listed(listing[t], true)
  }

  /** A pipeline from initialization on, stopped at some pause or completed. */
  ghost predicate IsWhole(c: Rig, listing: Listing, limits: seq<Option<nat>>, P: Plan, init: Write, run: seq<Trace>)
    requires 0 < c.target
  {
    IsInit(c, listing, init) && PlanFor(c, listing, P) && IsRun(c, limits, P, {}, init.stop, run)
  }

  function Rest(P: Plan, run: seq<Trace>): Plan {
    if run == [] then P else run[|run| - 1].end.plan
  }

  function Last(before: W.Sinks, run: seq<Trace>): W.Sinks {
    if run == [] then before else run[|run| - 1].write.stop
  }

  function LogOf(s: W.Sinks, t: Table): seq<W.Written> {
    if t in s.jobs then s.jobs[t].log else []
  }

  /** What the run's writes do to one key of the target. */
  ghost predicate RunWrites(run: seq<Trace>, t: Table, k: Key, b: Bag, b': Bag)
    decreases |run|
  {
    if run == [] then b == b'
    else exists m :: W.LogWrites(LogOf(run[0].write.stop, t), k, b, m) && RunWrites(run[1..], t, k, m, b')
  }

  /** Initialization's writes and then the run's. */
  ghost predicate WholeWrites(init: Write, run: seq<Trace>, t: Table, k: Key, b: Bag, b': Bag) {
    exists m :: W.LogWrites(LogOf(init.stop, t), k, b, m) && RunWrites(run, t, k, m, b')
  }

  // ---------------------------------------------------------------------
  // Regrouping
  // ---------------------------------------------------------------------

  lemma {:induction false} StreamAppend(read: Source, t: Table, a: seq<nat>, b: seq<nat>)
    ensures Stream(read, t, a + b) == Stream(read, t, a) + Stream(read, t, b)
  {
    if a == [] {
      assert a + b == b;
    } else {
      assert (a + b)[1..] == a[1..] + b;
      StreamAppend(read, t, a[1..], b);
    }
  }

  lemma {:induction false} StreamOfRows(e: Env, t: Table, ids: seq<nat>)
    ensures Flat(RowsOf(e, t, ids)) == Stream(e.read, t, ids)
  {
    if ids != [] {
      StreamOfRows(e, t, ids[1..]);
      FlatAppend(if e.read(t, ids[0]).Some? then e.read(t, ids[0]).value else [], RowsOf(e, t, ids[1..]));
    }
  }

  /** Grouping and coalescing only regroup the stored rows. */
  lemma {:induction false} BatchesAreStream(e: Env, t: Table, groups: seq<seq<nat>>)
    requires 0 < e.target
    ensures Flat(Batches(e, t, groups)) == Stream(e.read, t, Flat(groups))
  {
    if groups != [] {
      var first := Coalesced(e.target, RowsOf(e, t, groups[0]));
      BatchesAreStream(e, t, groups[1..]);
      CoalescedIsCompact(e.target, RowsOf(e, t, groups[0]));
      StreamOfRows(e, t, groups[0]);
      FlatAppend(first, Batches(e, t, groups[1..]));
      StreamAppend(e.read, t, groups[0], Flat(groups[1..]));
    }
  }

  lemma {:induction false} FirstsAreStream(c: Rig, listing: Listing, t: Table)
    requires 0 < c.target
    ensures Flat(FirstBatches(c, listing)(t)) == Stream(c.read, t, FirstOf(listing, t))
  {
    CoalescedIsCompact(c.target, RowsOf(EnvFor(c, None), t, FirstOf(listing, t)));
    StreamOfRows(EnvFor(c, None), t, FirstOf(listing, t));
  }

  /** The IDs a segment takes from a table. */
  function Portion(read: Source, P: Plan, F: set<Table>, max: Option<nat>, t: Table): seq<nat> {
    if t in F then [] else Available(read, t, Sorted(Reference.Upto(Ids(P, t), max)))
  }

  lemma {:induction false} PortionDelivered(e: Env, P: Plan, F: set<Table>, t: Table)
    requires EnvOk(e)
    ensures Flat(SegmentOutcome.Delivered(e, P, F, t)) == Portion(e.read, P, F, e.max, t)
  {
    SegmentOutcome.NeverVoid(e, P, t);
    SegmentOutcome.DeliveredOnceInOrder(e, P, F, t);
    assert RunSegment.ScopeIds(e, P, t) == Reference.Upto(Ids(P, t), e.max);
  }

  lemma {:induction false} TraceOutcome(c: Rig, limit: Option<nat>, P: Plan, F: set<Table>, tr: Trace)
    requires RigOk(c) && Wf(P) && limit != Some(0) && IsTrace(c, limit, P, F, tr)
    ensures SegmentOutcome.Outcome(EnvFor(c, RunSegment.Boundary(P, limit)), P, F, tr.end)
  {
    SegmentOutcome.SegmentOutcomeFixed(c.read, c.target, limit, P, F, tr.acts, tr.end);
  }

  /** A segment writes exactly the stored rows of its portion. */
  lemma {:induction false} SegmentRows(c: Rig, limit: Option<nat>, P: Plan, F: set<Table>, tr: Trace, t: Table)
    requires RigOk(c) && Wf(P) && limit != Some(0) && IsTrace(c, limit, P, F, tr)
    ensures var max := RunSegment.Boundary(P, limit);
      Flat(ReadBatches(EnvFor(c, max), tr.end.out)(t)) == Stream(c.read, t, Portion(c.read, P, F, max, t))
  {
    var e := EnvFor(c, RunSegment.Boundary(P, limit));
    TraceOutcome(c, limit, P, F, tr);
    PortionDelivered(e, P, F, t);
    assert RunSegment.Out(tr.end.out, t) == SegmentOutcome.Delivered(e, P, F, t);
    BatchesAreStream(e, t, RunSegment.Out(tr.end.out, t));
  }

  // ---------------------------------------------------------------------
  // What one schedule of the writers does.
  // ---------------------------------------------------------------------

  lemma {:induction false} WriteMeans(c: Rig, batches: Table -> seq<RecordBatch>, w: Write, t: Table, k: Key, b: Bag, b': Bag)
    requires RigOk(c) && IsWrite(c, Split(c, batches), w) && t in c.us
    requires Replayable(c.schema(t), Flat(batches(t)), k) && W.LogWrites(LogOf(w.stop, t), k, b, b')
    ensures b' == Fold(c.schema(t), Flat(batches(t)), k, b)
  {
    W.LedgersMatch(c.caps, c.us, Split(c, batches), w.begin, w.steps, w.stop);
    W.WritesMeanRows(c.caps, c.us, Split(c, batches), w.begin, w.steps, w.stop, c.schema(t), c.sort, t, batches(t), k, b, b');
  }

  /** The numbers of rows stored under the IDs of each table. */
  ghost function Counts(read: Source, ids: Table -> seq<nat>): Table -> nat {
    (t: Table) => |Stream(read, t, ids(t))|
  }

  /** The ledgers count exactly the rows stored under these IDs. */
  ghost predicate Balanced(c: Rig, s: W.Sinks, ids: Table -> seq<nat>) {
    && s.jobs.Keys == Elems(c.us)
    && s.ingest == Sum(c.us, Counts(c.read, ids))
    && forall t :: t in s.jobs ==> s.jobs[t].net == W.RowsNet(c.schema(t), Stream(c.read, t, ids(t)))
  }

  ghost predicate AllDeclared(c: Rig, ids: Table -> seq<nat>) {
    forall t :: t in c.us ==> Declared(c.schema(t), Stream(c.read, t, ids(t)))
  }

  lemma {:induction false} TableLedger(c: Rig, batches: Table -> seq<RecordBatch>, w: Write, t: Table)
    requires RigOk(c) && IsWrite(c, Split(c, batches), w) && t in c.us && Declared(c.schema(t), Flat(batches(t)))
    ensures t in w.begin.jobs && t in w.stop.jobs
    ensures w.stop.jobs[t].net == w.begin.jobs[t].net + W.RowsNet(c.schema(t), Flat(batches(t)))
    ensures W.LogRows(w.stop.jobs[t].log) == |Flat(batches(t))|
  {
    W.LedgersMatch(c.caps, c.us, Split(c, batches), w.begin, w.steps, w.stop);
    W.LedgersCountRows(c.caps, c.us, Split(c, batches), w.begin, w.steps, w.stop, c.schema(t), c.sort, t, batches(t));
  }

  lemma {:induction false} IngestGrows(c: Rig, batches: Table -> seq<RecordBatch>, w: Write, more: Table -> seq<nat>)
    requires RigOk(c) && IsWrite(c, Split(c, batches), w) && AllDeclared(c, more)
    requires forall t :: t in c.us ==> Flat(batches(t)) == Stream(c.read, t, more(t))
    ensures w.stop.ingest == w.begin.ingest + Sum(c.us, Counts(c.read, more))
    ensures w.stop.jobs.Keys == Elems(c.us)
  {
    W.LedgersMatch(c.caps, c.us, Split(c, batches), w.begin, w.steps, w.stop);
    assert Split(c, batches).Keys == Elems(c.us);
    forall t | t in c.us
      ensures W.Received(w.stop.jobs)(t) == Counts(c.read, more)(t)
    {
      TableLedger(c, batches, w, t);
    }
    SumSame(c.us, W.Received(w.stop.jobs), Counts(c.read, more));
  }

  lemma {:induction false} SumAdds(us: seq<Table>, f: Table -> nat, g: Table -> nat, h: Table -> nat)
    requires forall t :: t in us ==> f(t) + g(t) == h(t)
    ensures Sum(us, f) + Sum(us, g) == Sum(us, h)
  {
    if us != [] {
      SumAdds(us[1..], f, g, h);
    }
  }

  /** One schedule of the writers carries the balance on. */
  lemma {:induction false} BalanceGoesOn(c: Rig, before: W.Sinks, ids: Table -> seq<nat>, batches: Table -> seq<RecordBatch>, w: Write,
                                         more: Table -> seq<nat>, both: Table -> seq<nat>)
    requires RigOk(c) && Balanced(c, before, ids) && IsWrite(c, Split(c, batches), w) && Carries(before, w.begin)
    requires AllDeclared(c, more) && forall t :: t in c.us ==> Flat(batches(t)) == Stream(c.read, t, more(t))
    requires forall t :: t in c.us ==> both(t) == ids(t) + more(t)
    ensures Balanced(c, w.stop, both)
  {
    IngestGrows(c, batches, w, more);
    CountsAdd(c, ids, more, both);
    assert w.begin.ingest == before.ingest;
    hide Counts;
    forall t | t in w.stop.jobs
      ensures w.stop.jobs[t].net == W.RowsNet(c.schema(t), Stream(c.read, t, both(t)))
    {
      assert t in Elems(c.us);
      NetAdds(c, before, ids, batches, w, more, both, t);
    }
  }

  lemma {:induction false} CountsAdd(c: Rig, ids: Table -> seq<nat>, more: Table -> seq<nat>, both: Table -> seq<nat>)
    requires forall t :: t in c.us ==> both(t) == ids(t) + more(t)
    ensures Sum(c.us, Counts(c.read, ids)) + Sum(c.us, Counts(c.read, more)) == Sum(c.us, Counts(c.read, both))
  {
    forall t | t in c.us
      ensures Counts(c.read, ids)(t) + Counts(c.read, more)(t) == Counts(c.read, both)(t)
    {
      StreamAppend(c.read, t, ids(t), more(t));
    }
    SumAdds(c.us, Counts(c.read, ids), Counts(c.read, more), Counts(c.read, both));
  }

  lemma {:induction false} NetAdds(c: Rig, before: W.Sinks, ids: Table -> seq<nat>, batches: Table -> seq<RecordBatch>, w: Write,
                                   more: Table -> seq<nat>, both: Table -> seq<nat>, t: Table)
    requires RigOk(c) && Balanced(c, before, ids) && IsWrite(c, Split(c, batches), w) && Carries(before, w.begin)
    requires AllDeclared(c, more) && t in c.us && Flat(batches(t)) == Stream(c.read, t, more(t)) && both(t) == ids(t) + more(t)
    ensures t in w.stop.jobs && w.stop.jobs[t].net == W.RowsNet(c.schema(t), Stream(c.read, t, both(t)))
  {
    TableLedger(c, batches, w, t);
    StreamAppend(c.read, t, ids(t), more(t));
    W.RowsNetAppend(c.schema(t), Stream(c.read, t, ids(t)), Stream(c.read, t, more(t)));
  }

  // ---------------------------------------------------------------------
  // Which batches a run has taken.
  // ---------------------------------------------------------------------

  /** The IDs the segments of a run have taken from a table. */
  function Taken(read: Source, limits: seq<Option<nat>>, P: Plan, F: set<Table>, run: seq<Trace>, t: Table): seq<nat>
    decreases |limits|
  {
    if limits == [] || run == [] then []
    else
      Portion(read, P, F, RunSegment.Boundary(P, limits[0]), t) +
      Taken(read, limits[1..], run[0].end.plan, run[0].end.finished, run[1..], t)
  }

  /** What a segment leaves of a table: the later IDs, and whether it is finished. */
  lemma {:induction false} TableAfter(c: Rig, limit: Option<nat>, P: Plan, F: set<Table>, tr: Trace, t: Table)
    requires RigOk(c) && Wf(P) && limit != Some(0) && IsTrace(c, limit, P, F, tr)
    ensures Wf(tr.end.plan)
    ensures var max := RunSegment.Boundary(P, limit);
      && Ids(tr.end.plan, t) == Ids(P, t) - Reference.Upto(Ids(P, t), max)
      && (t in tr.end.finished <==> t in F || Reference.Missing(c.read, t, Sorted(Reference.Upto(Ids(P, t), max))))
  {
    var e := EnvFor(c, RunSegment.Boundary(P, limit));
    TraceOutcome(c, limit, P, F, tr);
    AvailableAll(e, t, RunSegment.Scope(e, P, t));
    SegmentOutcome.NeverVoid(e, P, t);
    assert RunSegment.ScopeIds(e, P, t) == Reference.Upto(Ids(P, t), e.max);
  }

  /** At every pause a table's taken IDs are a prefix of what is available to it, and
      all of it once the plan is empty; a table finished before takes nothing. */
  lemma {:induction false} TakenIsPrefix(c: Rig, limits: seq<Option<nat>>, P: Plan, F: set<Table>, before: W.Sinks, run: seq<Trace>, t: Table)
    requires RigOk(c) && Wf(P) && IsRun(c, limits, P, F, before, run)
    ensures t in F ==> Taken(c.read, limits, P, F, run, t) == []
    ensures t !in F ==> Taken(c.read, limits, P, F, run, t) <= Available(c.read, t, Sorted(Ids(P, t)))
    ensures t !in F && Rest(P, run) == map[] ==>
      Taken(c.read, limits, P, F, run, t) == Available(c.read, t, Sorted(Ids(P, t)))
    decreases |limits|
  {
    assert 0 < c.target;
    hide RigOk;
    if limits == [] {
      if Rest(P, run) == map[] {
        assert Ids(P, t) == {};
      }
    } else {
      hide Rest;
      Tails(P, before, run);
      RunUnfold(c, limits, P, F, before, run);
      hide IsRun;
      hide IsTrace;
      var tr, max := run[0], RunSegment.Boundary(P, limits[0]);
      TableAfter(c, limits[0], P, F, tr, t);
      Reference.AvailableSegment(c.read, t, Ids(P, t), max);
      TakenIsPrefix(c, limits[1..], tr.end.plan, tr.end.finished, tr.write.stop, run[1..], t);
      hide Available;
      hide Reference.Missing;
      hide Wf;
      hide Ids;
      hide RunSegment.Boundary;
    }
  }

  lemma {:induction false} Tails(P: Plan, before: W.Sinks, run: seq<Trace>)
    requires run != []
    ensures Rest(run[0].end.plan, run[1..]) == Rest(P, run) && Last(run[0].write.stop, run[1..]) == Last(before, run)
  {
  }

  lemma {:induction false} RunUnfold(c: Rig, limits: seq<Option<nat>>, P: Plan, F: set<Table>, before: W.Sinks, run: seq<Trace>)
    requires 0 < c.target && IsRun(c, limits, P, F, before, run) && limits != []
    ensures run != [] && limits[0] != Some(0) && IsTrace(c, limits[0], P, F, run[0]) && Carries(before, run[0].write.begin)
    ensures IsRun(c, limits[1..], run[0].end.plan, run[0].end.finished, run[0].write.stop, run[1..])
  {
    hide IsTrace;
    hide Carries;
  }

  // ---------------------------------------------------------------------
  // Meaning
  // ---------------------------------------------------------------------

  /** One segment: the table changes by exactly the rows of its portion. */
  lemma {:induction false} SegmentMeansRows(c: Rig, limit: Option<nat>, P: Plan, F: set<Table>, tr: Trace, t: Table, k: Key, b: Bag, b': Bag)
    requires RigOk(c) && Wf(P) && limit != Some(0) && IsTrace(c, limit, P, F, tr) && t in c.us
    requires W.LogWrites(LogOf(tr.write.stop, t), k, b, b')
    requires Replayable(c.schema(t), Stream(c.read, t, Portion(c.read, P, F, RunSegment.Boundary(P, limit), t)), k)
    ensures b' == Fold(c.schema(t), Stream(c.read, t, Portion(c.read, P, F, RunSegment.Boundary(P, limit), t)), k, b)
  {
    var e := EnvFor(c, RunSegment.Boundary(P, limit));
    SegmentRows(c, limit, P, F, tr, t);
    WriteMeans(c, ReadBatches(e, tr.end.out), tr.write, t, k, b, b');
  }

  /** At every pause a table holds what the rows of the batches taken so far, applied
      one by one, would have left. */
  lemma {:induction false} PausedMeansRows(c: Rig, limits: seq<Option<nat>>, P: Plan, F: set<Table>, before: W.Sinks, run: seq<Trace>,
                                           t: Table, k: Key, b: Bag, b': Bag)
    requires RigOk(c) && Wf(P) && IsRun(c, limits, P, F, before, run) && RunWrites(run, t, k, b, b') && t in c.us
    requires Replayable(c.schema(t), Stream(c.read, t, Taken(c.read, limits, P, F, run, t)), k)
    ensures b' == Fold(c.schema(t), Stream(c.read, t, Taken(c.read, limits, P, F, run, t)), k, b)
    decreases |limits|
  {
    if limits != [] {
      var tr, sc := run[0], c.schema(t);
      var now := Portion(c.read, P, F, RunSegment.Boundary(P, limits[0]), t);
      var later := Taken(c.read, limits[1..], tr.end.plan, tr.end.finished, run[1..], t);
      var m :| W.LogWrites(LogOf(tr.write.stop, t), k, b, m) && RunWrites(run[1..], t, k, m, b');
      TableAfter(c, limits[0], P, F, tr, t);
      StreamAppend(c.read, t, now, later);
      ReplayableParts(sc, Stream(c.read, t, now), Stream(c.read, t, later), k);
      SegmentMeansRows(c, limits[0], P, F, tr, t, k, b, m);
      PausedMeansRows(c, limits[1..], tr.end.plan, tr.end.finished, tr.write.stop, run[1..], t, k, m, b');
      FoldAppend(sc, Stream(c.read, t, now), Stream(c.read, t, later), k, b);
    }
  }

  /** A complete run from any plan: each table not finished before holds what its stored
      rows, up to the first missing batch, would have left. */
  lemma {:induction false} RunMeansRows(c: Rig, limits: seq<Option<nat>>, P: Plan, F: set<Table>, before: W.Sinks, run: seq<Trace>,
                                        t: Table, k: Key, b: Bag, b': Bag)
    requires RigOk(c) && Wf(P) && IsRun(c, limits, P, F, before, run) && RunWrites(run, t, k, b, b') && t in c.us
    requires Rest(P, run) == map[]
    requires t !in F ==> Replayable(c.schema(t), Stream(c.read, t, Available(c.read, t, Sorted(Ids(P, t)))), k)
    ensures b' == if t in F then b else Fold(c.schema(t), Stream(c.read, t, Available(c.read, t, Sorted(Ids(P, t)))), k, b)
  {
    TakenIsPrefix(c, limits, P, F, before, run, t);
    if t in F {
      NothingReplayable(c.schema(t), k);
    }
    PausedMeansRows(c, limits, P, F, before, run, t, k, b, b');
  }

  lemma {:induction false} NothingReplayable(sc: Schema, k: Key)
    ensures Replayable(sc, [], k)
  {
  }

  /** The IDs a whole pipeline has taken from a table: the first one, by initialization,
      and those of its segments. */
  function WholeTaken(read: Source, listing: Listing, limits: seq<Option<nat>>, P: Plan, run: seq<Trace>, t: Table): seq<nat> {
    FirstOf(listing, t) + Taken(read, limits, P, {}, run, t)
  }

  /** They are a prefix of everything listed, up to the first missing batch, and all of
      it once the plan is empty. */
  lemma {:induction false} WholeTakenIsPrefix(c: Rig, listing: Listing, limits: seq<Option<nat>>, P: Plan, init: Write, run: seq<Trace>, t: Table)
    requires RigOk(c) && IsWhole(c, listing, limits, P, init, run) && t in c.us
    requires Pipeline.FirstsPresent(c.read, listing) && Pipeline.LeastFirst(listing[t])
    ensures WholeTaken(c.read, listing, limits, P, run, t) <= Pipeline.Everything(c.read, listing[t], t)
    ensures Rest(P, run) == map[] ==> WholeTaken(c.read, listing, limits, P, run, t) == Pipeline.Everything(c.read, listing[t], t)
  {
    TakenIsPrefix(c, limits, P, {}, init.stop, run, t);
    Pipeline.EverythingSplits(c.read, listing[t], t);
    assert Ids(P, t) == Listed(listing[t], true);
    hide IsWhole;
    hide Rest;
    hide Available;
    hide Taken;
  }

  /** The whole pipeline, at every pause: initialization included, a table holds what
      the rows taken so far would have left. */
  lemma {:induction false} WholePausedMeansRows(c: Rig, listing: Listing, limits: seq<Option<nat>>, P: Plan, init: Write, run: seq<Trace>,
                                                t: Table, k: Key, b: Bag, b': Bag)
    requires RigOk(c) && IsWhole(c, listing, limits, P, init, run) && WholeWrites(init, run, t, k, b, b') && t in c.us
    requires Replayable(c.schema(t), Stream(c.read, t, WholeTaken(c.read, listing, limits, P, run, t)), k)
    ensures b' == Fold(c.schema(t), Stream(c.read, t, WholeTaken(c.read, listing, limits, P, run, t)), k, b)
  {
    var m :| W.LogWrites(LogOf(init.stop, t), k, b, m) && RunWrites(run, t, k, m, b');
    var first, later, sc := FirstOf(listing, t), Taken(c.read, limits, P, {}, run, t), c.schema(t);
    StreamAppend(c.read, t, first, later);
    ReplayableParts(sc, Stream(c.read, t, first), Stream(c.read, t, later), k);
    FirstsAreStream(c, listing, t);
    WriteMeans(c, FirstBatches(c, listing), init, t, k, b, m);
    PausedMeansRows(c, limits, P, {}, init.stop, run, t, k, m, b');
    FoldAppend(sc, Stream(c.read, t, first), Stream(c.read, t, later), k, b);
  }

  /** The whole pipeline, completed: initialize, then any number of segments with any
      budgets.  Every table holds what all its listed batches, in ascending order and
      up to the first missing one, would have left if their rows had been applied one
      by one. */
  lemma {:induction false} WholeMeansRows(c: Rig, listing: Listing, limits: seq<Option<nat>>, P: Plan, init: Write, run: seq<Trace>,
                                          t: Table, k: Key, b: Bag, b': Bag)
    requires RigOk(c) && IsWhole(c, listing, limits, P, init, run) && WholeWrites(init, run, t, k, b, b') && t in c.us
    requires Pipeline.FirstsPresent(c.read, listing) && Pipeline.LeastFirst(listing[t]) && Rest(P, run) == map[]
    requires Replayable(c.schema(t), Stream(c.read, t, Pipeline.Everything(c.read, listing[t], t)), k)
    ensures b' == Fold(c.schema(t), Stream(c.read, t, Pipeline.Everything(c.read, listing[t], t)), k, b)
  {
    WholeTakenIsPrefix(c, listing, limits, P, init, run, t);
    WholePausedMeansRows(c, listing, limits, P, init, run, t, k, b, b');
  }

  /** The same on the `_op` texts alone, at every pause: how many rows a key has, and with
      which values. */
  lemma {:induction false} WholePausedLeaves(c: Rig, listing: Listing, limits: seq<Option<nat>>, P: Plan, init: Write, run: seq<Trace>,
                                             t: Table, k: Key, b: Bag, b': Bag)
    requires RigOk(c) && IsWhole(c, listing, limits, P, init, run) && WholeWrites(init, run, t, k, b, b') && t in c.us
    requires Replayable(c.schema(t), Stream(c.read, t, WholeTaken(c.read, listing, limits, P, run, t)), k)
    ensures var rows := Stream(c.read, t, WholeTaken(c.read, listing, limits, P, run, t));
      b' == Left(c.schema(t), rows, k, b) && Reads(c.schema(t), rows, k, b, b')
  {
    WholePausedMeansRows(c, listing, limits, P, init, run, t, k, b, b');
    TextsLeave(c.schema(t), Stream(c.read, t, WholeTaken(c.read, listing, limits, P, run, t)), k, b);
  }

  lemma {:induction false} TextsLeave(sc: Schema, rows: seq<Row>, k: Key, b: Bag)
    ensures Fold(sc, rows, k, b) == Left(sc, rows, k, b) && Reads(sc, rows, k, b, Fold(sc, rows, k, b))
  {
    FoldIsLeft(sc, rows, k, b);
    LeftReads(sc, rows, k, b);
  }

  /** And on completion, for everything listed. */
  lemma {:induction false} WholeLeaves(c: Rig, listing: Listing, limits: seq<Option<nat>>, P: Plan, init: Write, run: seq<Trace>,
                                       t: Table, k: Key, b: Bag, b': Bag)
    requires RigOk(c) && IsWhole(c, listing, limits, P, init, run) && WholeWrites(init, run, t, k, b, b') && t in c.us
    requires Pipeline.FirstsPresent(c.read, listing) && Pipeline.LeastFirst(listing[t]) && Rest(P, run) == map[]
    requires Replayable(c.schema(t), Stream(c.read, t, Pipeline.Everything(c.read, listing[t], t)), k)
    ensures var rows := Stream(c.read, t, Pipeline.Everything(c.read, listing[t], t));
      b' == Left(c.schema(t), rows, k, b) && Reads(c.schema(t), rows, k, b, b')
  {
    WholeMeansRows(c, listing, limits, P, init, run, t, k, b, b');
    TextsLeave(c.schema(t), Stream(c.read, t, Pipeline.Everything(c.read, listing[t], t)), k, b);
  }

  /** Budgets, schedules, row target, chunk size and permits do not show in the
      target: two completed pipelines over the same storage and listing agree on every
      key of every table. */
  lemma {:induction false} RunsAgree(c: Rig, d: Rig, listing: Listing, limits: seq<Option<nat>>, limits': seq<Option<nat>>, P: Plan, P': Plan,
                                     init: Write, init': Write, run: seq<Trace>, run': seq<Trace>, t: Table, k: Key, b: Bag, b1: Bag, b2: Bag)
    requires RigOk(c) && RigOk(d) && c.read == d.read && c.schema == d.schema && t in c.us && t in d.us
    requires IsWhole(c, listing, limits, P, init, run) && WholeWrites(init, run, t, k, b, b1) && Rest(P, run) == map[]
    requires IsWhole(d, listing, limits', P', init', run') && WholeWrites(init', run', t, k, b, b2) && Rest(P', run') == map[]
    requires Pipeline.FirstsPresent(c.read, listing) && Pipeline.LeastFirst(listing[t])
    requires Replayable(c.schema(t), Stream(c.read, t, Pipeline.Everything(c.read, listing[t], t)), k)
    ensures b1 == b2
  {
    WholeMeansRows(c, listing, limits, P, init, run, t, k, b, b1);
    WholeMeansRows(d, listing, limits', P', init', run', t, k, b, b2);
  }

  // ---------------------------------------------------------------------
  // Ledgers
  // ---------------------------------------------------------------------

  ghost function TakenBy(read: Source, limits: seq<Option<nat>>, P: Plan, F: set<Table>, run: seq<Trace>): Table -> seq<nat> {
    (t: Table) => Taken(read, limits, P, F, run, t)
  }

  ghost function PortionBy(read: Source, P: Plan, F: set<Table>, max: Option<nat>): Table -> seq<nat> {
    (t: Table) => Portion(read, P, F, max, t)
  }

  ghost function Joined(f: Table -> seq<nat>, g: Table -> seq<nat>): Table -> seq<nat> {
    (t: Table) => f(t) + g(t)
  }

  lemma {:induction false} DeclaredJoin(c: Rig, f: Table -> seq<nat>, g: Table -> seq<nat>)
    ensures AllDeclared(c, Joined(f, g)) <==> AllDeclared(c, f) && AllDeclared(c, g)
  {
    forall t
      ensures Declared(c.schema(t), Stream(c.read, t, Joined(f, g)(t))) <==>
        Declared(c.schema(t), Stream(c.read, t, f(t))) && Declared(c.schema(t), Stream(c.read, t, g(t)))
    {
      StreamAppend(c.read, t, f(t), g(t));
      DeclaredParts(c.schema(t), Stream(c.read, t, f(t)), Stream(c.read, t, g(t)));
    }
  }

  lemma {:induction false} SegmentBalances(c: Rig, limit: Option<nat>, P: Plan, F: set<Table>, tr: Trace, before: W.Sinks, ids: Table -> seq<nat>)
    requires RigOk(c) && Wf(P) && limit != Some(0) && IsTrace(c, limit, P, F, tr)
    requires Balanced(c, before, ids) && Carries(before, tr.write.begin)
    requires AllDeclared(c, PortionBy(c.read, P, F, RunSegment.Boundary(P, limit)))
    ensures Balanced(c, tr.write.stop, Joined(ids, PortionBy(c.read, P, F, RunSegment.Boundary(P, limit))))
  {
    var max := RunSegment.Boundary(P, limit);
    var e, more := EnvFor(c, max), PortionBy(c.read, P, F, max);
    forall t | t in c.us
      ensures Flat(ReadBatches(e, tr.end.out)(t)) == Stream(c.read, t, more(t))
    {
      SegmentRows(c, limit, P, F, tr, t);
    }
    BalanceGoesOn(c, before, ids, ReadBatches(e, tr.end.out), tr.write, more, Joined(ids, more));
  }

  lemma {:induction false} BalancedSame(c: Rig, s: W.Sinks, f: Table -> seq<nat>, g: Table -> seq<nat>)
    requires Balanced(c, s, f) && forall t :: t in c.us ==> f(t) == g(t)
    ensures Balanced(c, s, g)
  {
    SumSame(c.us, Counts(c.read, f), Counts(c.read, g));
    forall t | t in s.jobs
      ensures f(t) == g(t)
    {
      assert t in Elems(c.us);
    }
  }

  /** The ledgers of a run count the rows taken, at every pause. */
  lemma {:induction false} RunBalances(c: Rig, limits: seq<Option<nat>>, P: Plan, F: set<Table>, before: W.Sinks, run: seq<Trace>, ids: Table -> seq<nat>)
    requires RigOk(c) && Wf(P) && IsRun(c, limits, P, F, before, run) && Balanced(c, before, ids)
    requires AllDeclared(c, TakenBy(c.read, limits, P, F, run))
    ensures Balanced(c, Last(before, run), Joined(ids, TakenBy(c.read, limits, P, F, run)))
    decreases |limits|
  {
    var all := TakenBy(c.read, limits, P, F, run);
    if limits == [] {
      NothingTaken(c, P, F, before, ids);
    } else {
      assert 0 < c.target;
      RunUnfold(c, limits, P, F, before, run);
      Tails(P, before, run);
      hide RigOk;
      hide Balanced;
      hide AllDeclared;
      hide Last;
      hide IsRun;
      hide IsTrace;
      hide Carries;
      hide Taken;
      hide TakenBy;
      hide PortionBy;
      hide Joined;
      hide Wf;
      var tr := run[0];
      var now := PortionBy(c.read, P, F, RunSegment.Boundary(P, limits[0]));
      var later := TakenBy(c.read, limits[1..], tr.end.plan, tr.end.finished, run[1..]);
      TakenStep(c.read, limits, P, F, run, all, now, later);
      TakenSplit(c, all, now, later);
      TraceWf(c, limits[0], P, F, tr);
      SegmentBalances(c, limits[0], P, F, tr, before, ids);
      RunBalances(c, limits[1..], tr.end.plan, tr.end.finished, tr.write.stop, run[1..], Joined(ids, now));
      Reassociate(c, Last(before, run), ids, now, later, all);
    }
  }

  lemma {:induction false} NothingTaken(c: Rig, P: Plan, F: set<Table>, before: W.Sinks, ids: Table -> seq<nat>)
    requires Balanced(c, before, ids)
    ensures Last(before, []) == before && Balanced(c, before, Joined(ids, TakenBy(c.read, [], P, F, [])))
  {
    BalancedSame(c, before, ids, Joined(ids, TakenBy(c.read, [], P, F, [])));
  }

  lemma {:induction false} Reassociate(c: Rig, s: W.Sinks, ids: Table -> seq<nat>, now: Table -> seq<nat>, later: Table -> seq<nat>, all: Table -> seq<nat>)
    requires Balanced(c, s, Joined(Joined(ids, now), later)) && forall t :: all(t) == now(t) + later(t)
    ensures Balanced(c, s, Joined(ids, all))
  {
    forall t
      ensures Joined(Joined(ids, now), later)(t) == Joined(ids, all)(t)
    {
      assert (ids(t) + now(t)) + later(t) == ids(t) + (now(t) + later(t));
    }
    BalancedSame(c, s, Joined(Joined(ids, now), later), Joined(ids, all));
  }

  lemma {:induction false} TakenStep(read: Source, limits: seq<Option<nat>>, P: Plan, F: set<Table>, run: seq<Trace>,
                                     all: Table -> seq<nat>, now: Table -> seq<nat>, later: Table -> seq<nat>)
    requires limits != [] && run != [] && all == TakenBy(read, limits, P, F, run)
    requires now == PortionBy(read, P, F, RunSegment.Boundary(P, limits[0]))
    requires later == TakenBy(read, limits[1..], run[0].end.plan, run[0].end.finished, run[1..])
    ensures forall t :: all(t) == now(t) + later(t)
  {
  }

  lemma {:induction false} TakenSplit(c: Rig, all: Table -> seq<nat>, now: Table -> seq<nat>, later: Table -> seq<nat>)
    requires AllDeclared(c, all) && forall t :: all(t) == now(t) + later(t)
    ensures AllDeclared(c, now) && AllDeclared(c, later)
  {
    forall t | t in c.us
      ensures Declared(c.schema(t), Stream(c.read, t, Joined(now, later)(t)))
    {
      assert Joined(now, later)(t) == all(t);
    }
    DeclaredJoin(c, now, later);
  }

  lemma {:induction false} TraceWf(c: Rig, limit: Option<nat>, P: Plan, F: set<Table>, tr: Trace)
    requires RigOk(c) && Wf(P) && limit != Some(0) && IsTrace(c, limit, P, F, tr)
    ensures Wf(tr.end.plan)
  {
    TraceOutcome(c, limit, P, F, tr);
  }

  ghost function FirstBy(listing: Listing): Table -> seq<nat> {
    (t: Table) => FirstOf(listing, t)
  }

  ghost function WholeBy(read: Source, listing: Listing, limits: seq<Option<nat>>, P: Plan, run: seq<Trace>): Table -> seq<nat> {
    (t: Table) => WholeTaken(read, listing, limits, P, run, t)
  }

  ghost function EverythingBy(read: Source, listing: Listing): Table -> seq<nat> {
    (t: Table) => if t in listing then Pipeline.Everything(read, listing[t], t) else []
  }

  lemma {:induction false} InitBalances(c: Rig, listing: Listing, w: Write)
    requires RigOk(c) && IsInit(c, listing, w) && AllDeclared(c, FirstBy(listing))
    ensures Balanced(c, w.stop, FirstBy(listing))
  {
    var first := FirstBy(listing);
    forall t | t in c.us
      ensures Flat(FirstBatches(c, listing)(t)) == Stream(c.read, t, first(t))
    {
      FirstsAreStream(c, listing, t);
    }
    IngestGrows(c, FirstBatches(c, listing), w, first);
    forall t | t in w.stop.jobs
      ensures w.stop.jobs[t].net == W.RowsNet(c.schema(t), Stream(c.read, t, first(t)))
    {
      assert t in Elems(c.us);
      TableLedger(c, FirstBatches(c, listing), w, t);
    }
  }

  /** Ledgers match the sink at every pause and at completion: cumulated over
      initialization and all segments, `net_rows` of each table is the inserted minus
      the deleted rows of the batches taken so far, and `ingest_rows_total` is their
      number of rows, for every row target, chunk size, budget list and schedule. */
  lemma {:induction false} WholeLedgers(c: Rig, listing: Listing, limits: seq<Option<nat>>, P: Plan, init: Write, run: seq<Trace>)
    requires RigOk(c) && IsWhole(c, listing, limits, P, init, run)
    requires AllDeclared(c, WholeBy(c.read, listing, limits, P, run))
    ensures Balanced(c, Last(init.stop, run), WholeBy(c.read, listing, limits, P, run))
  {
    var whole, first, later := WholeBy(c.read, listing, limits, P, run), FirstBy(listing), TakenBy(c.read, limits, P, {}, run);
    TakenSplit(c, whole, first, later);
    InitBalances(c, listing, init);
    RunBalances(c, limits, P, {}, init.stop, run, first);
    BalancedSame(c, Last(init.stop, run), Joined(first, later), whole);
  }

  /** Completed: the ledgers count everything listed, up to the first missing batch of
      each table. */
  lemma {:induction false} CompletedLedgers(c: Rig, listing: Listing, limits: seq<Option<nat>>, P: Plan, init: Write, run: seq<Trace>)
    requires RigOk(c) && IsWhole(c, listing, limits, P, init, run) && Rest(P, run) == map[]
    requires Pipeline.FirstsPresent(c.read, listing) && forall t :: t in c.us ==> Pipeline.LeastFirst(listing[t])
    requires AllDeclared(c, EverythingBy(c.read, listing))
    ensures Balanced(c, Last(init.stop, run), EverythingBy(c.read, listing))
  {
    var whole, all := WholeBy(c.read, listing, limits, P, run), EverythingBy(c.read, listing);
    forall t | t in c.us
      ensures whole(t) == all(t)
    {
      WholeTakenIsPrefix(c, listing, limits, P, init, run, t);
    }
    hide IsWhole;
    assert AllDeclared(c, whole);
    WholeLedgers(c, listing, limits, P, init, run);
    BalancedSame(c, Last(init.stop, run), whole, all);
  }

  /** The net ledger on the `_op` texts: rows that are neither updates nor deletes, minus
      deletes. */
  lemma {:induction false} CompletedNet(c: Rig, listing: Listing, limits: seq<Option<nat>>, P: Plan, init: Write, run: seq<Trace>, t: Table)
    requires RigOk(c) && IsWhole(c, listing, limits, P, init, run) && Rest(P, run) == map[] && t in c.us
    requires Pipeline.FirstsPresent(c.read, listing) && forall u :: u in c.us ==> Pipeline.LeastFirst(listing[u])
    requires AllDeclared(c, EverythingBy(c.read, listing))
    ensures t in Last(init.stop, run).jobs
    ensures var rows := Stream(c.read, t, Pipeline.Everything(c.read, listing[t], t));
      Last(init.stop, run).jobs[t].net == NumPlain(c.schema(t), rows) - NumSaying(c.schema(t), rows, "d")
  {
    CompletedLedgers(c, listing, limits, P, init, run);
    var s := Last(init.stop, run);
    hide Last;
    assert t in listing;
    hide IsWhole;
    hide RigOk;
    hide AllDeclared;
    BalancedAt(c, s, EverythingBy(c.read, listing), t);
    NetCounts(c.schema(t), Stream(c.read, t, Pipeline.Everything(c.read, listing[t], t)));
  }

  lemma {:induction false} BalancedAt(c: Rig, s: W.Sinks, ids: Table -> seq<nat>, t: Table)
    requires Balanced(c, s, ids) && t in c.us
    ensures t in s.jobs && s.jobs[t].net == W.RowsNet(c.schema(t), Stream(c.read, t, ids(t)))
  {
    assert t in Elems(c.us);
  }

  // ---------------------------------------------------------------------
  // The sink's write log
  // ---------------------------------------------------------------------

  /** Everything a run has written to a table. */
  function RunLog(run: seq<Trace>, t: Table): seq<W.Written> {
    if run == [] then [] else LogOf(run[0].write.stop, t) + RunLog(run[1..], t)
  }

  lemma {:induction false} LogNetAppend(a: seq<W.Written>, b: seq<W.Written>)
    ensures W.LogNet(a + b) == W.LogNet(a) + W.LogNet(b)
  {
    if a == [] {
      assert a + b == b;
    } else {
      assert (a + b)[1..] == a[1..] + b;
      LogNetAppend(a[1..], b);
    }
  }

  lemma {:induction false} LogRowsAppend(a: seq<W.Written>, b: seq<W.Written>)
    ensures W.LogRows(a + b) == W.LogRows(a) + W.LogRows(b)
  {
    if a == [] {
      assert a + b == b;
    } else {
      assert (a + b)[1..] == a[1..] + b;
      LogRowsAppend(a[1..], b);
    }
  }

  /** One schedule of the writers moves the ledgers by its log. */
  lemma {:induction false} WriteBooks(c: Rig, batches: Table -> seq<RecordBatch>, w: Write, t: Table)
    requires RigOk(c) && IsWrite(c, Split(c, batches), w) && t in c.us
    ensures t in w.stop.jobs && t in w.begin.jobs
    ensures w.stop.jobs[t].net == w.begin.jobs[t].net + W.LogNet(LogOf(w.stop, t))
    ensures w.stop.ingest == w.begin.ingest + Sum(c.us, W.Received(w.stop.jobs))
  {
    W.LedgersMatch(c.caps, c.us, Split(c, batches), w.begin, w.steps, w.stop);
  }

  /** Over any run `net_rows` moves by what the log inserted minus what it deleted,
      without any assumption on the rows. */
  lemma {:induction false} RunNetIsLogNet(c: Rig, limits: seq<Option<nat>>, P: Plan, F: set<Table>, before: W.Sinks, run: seq<Trace>, t: Table)
    requires RigOk(c) && Wf(P) && IsRun(c, limits, P, F, before, run) && t in c.us && t in before.jobs
    ensures t in Last(before, run).jobs
    ensures Last(before, run).jobs[t].net == before.jobs[t].net + W.LogNet(RunLog(run, t))
    decreases |limits|
  {
    if limits != [] {
      var tr := run[0];
      var e := EnvFor(c, RunSegment.Boundary(P, limits[0]));
      RunUnfold(c, limits, P, F, before, run);
      Tails(P, before, run);
      hide Last;
      hide IsRun;
      WriteBooks(c, ReadBatches(e, tr.end.out), tr.write, t);
      TraceWf(c, limits[0], P, F, tr);
      RunNetIsLogNet(c, limits[1..], tr.end.plan, tr.end.finished, tr.write.stop, run[1..], t);
      LogNetAppend(LogOf(tr.write.stop, t), RunLog(run[1..], t));
    }
  }

  ghost function RunLogSizes(run: seq<Trace>): Table -> nat {
    (t: Table) => W.LogRows(RunLog(run, t))
  }

  /** And `ingest_rows_total` moves by the rows of all logs. */
  lemma {:induction false} RunIngestIsLogRows(c: Rig, limits: seq<Option<nat>>, P: Plan, F: set<Table>, before: W.Sinks, run: seq<Trace>)
    requires RigOk(c) && Wf(P) && IsRun(c, limits, P, F, before, run)
    ensures Last(before, run).ingest == before.ingest + Sum(c.us, RunLogSizes(run))
    decreases |limits|
  {
    if limits == [] {
      W.SumNothing(c.us, RunLogSizes(run));
    } else {
      var tr := run[0];
      var e := EnvFor(c, RunSegment.Boundary(P, limits[0]));
      RunUnfold(c, limits, P, F, before, run);
      Tails(P, before, run);
      hide IsRun;
      hide Last;
      W.LedgersMatch(c.caps, c.us, Split(c, ReadBatches(e, tr.end.out)), tr.write.begin, tr.write.steps, tr.write.stop);
      TraceWf(c, limits[0], P, F, tr);
      hide IsTrace;
      hide RigOk;
      RunIngestIsLogRows(c, limits[1..], tr.end.plan, tr.end.finished, tr.write.stop, run[1..]);
      forall t | t in c.us
        ensures W.Received(tr.write.stop.jobs)(t) + RunLogSizes(run[1..])(t) == RunLogSizes(run)(t)
      {
        LogRowsAppend(LogOf(tr.write.stop, t), RunLog(run[1..], t));
      }
      SumAdds(c.us, W.Received(tr.write.stop.jobs), RunLogSizes(run[1..]), RunLogSizes(run));
    }
  }

  /** Everything the pipeline has written to a table, initialization included. */
  function WholeLog(init: Write, run: seq<Trace>, t: Table): seq<W.Written> {
    LogOf(init.stop, t) + RunLog(run, t)
  }

  ghost function WholeLogSizes(init: Write, run: seq<Trace>): Table -> nat {
    (t: Table) => W.LogRows(WholeLog(init, run, t))
  }

  /** The ledgers are those of the sink's cumulated write log, at every pause. */
  lemma {:induction false} WholeLedgersAreLog(c: Rig, listing: Listing, limits: seq<Option<nat>>, P: Plan, init: Write, run: seq<Trace>)
    requires RigOk(c) && IsWhole(c, listing, limits, P, init, run)
    ensures Last(init.stop, run).ingest == Sum(c.us, WholeLogSizes(init, run))
    ensures forall t :: t in c.us ==>
      t in Last(init.stop, run).jobs && Last(init.stop, run).jobs[t].net == W.LogNet(WholeLog(init, run, t))
  {
    WholeIngest(c, listing, limits, P, init, run);
    hide IsWhole;
    hide RigOk;
    hide Last;
    forall t | t in c.us
      ensures t in Last(init.stop, run).jobs && Last(init.stop, run).jobs[t].net == W.LogNet(WholeLog(init, run, t))
    {
      WholeNet(c, listing, limits, P, init, run, t);
    }
  }

  lemma {:induction false} WholeIngest(c: Rig, listing: Listing, limits: seq<Option<nat>>, P: Plan, init: Write, run: seq<Trace>)
    requires RigOk(c) && IsWhole(c, listing, limits, P, init, run)
    ensures Last(init.stop, run).ingest == Sum(c.us, WholeLogSizes(init, run))
  {
    hide Last;
    hide IsRun;
    W.LedgersMatch(c.caps, c.us, Split(c, FirstBatches(c, listing)), init.begin, init.steps, init.stop);
    RunIngestIsLogRows(c, limits, P, {}, init.stop, run);
    assert init.begin.ingest == 0;
    hide IsInit;
    hide IsWhole;
    hide RigOk;
    LogSizesAdd(c.us, init, run);
  }

  lemma {:induction false} LogSizesAdd(us: seq<Table>, init: Write, run: seq<Trace>)
    ensures Sum(us, W.Received(init.stop.jobs)) + Sum(us, RunLogSizes(run)) == Sum(us, WholeLogSizes(init, run))
  {
    forall t | t in us
      ensures W.Received(init.stop.jobs)(t) + RunLogSizes(run)(t) == WholeLogSizes(init, run)(t)
    {
      LogRowsAppend(LogOf(init.stop, t), RunLog(run, t));
    }
    SumAdds(us, W.Received(init.stop.jobs), RunLogSizes(run), WholeLogSizes(init, run));
  }

  lemma {:induction false} WholeNet(c: Rig, listing: Listing, limits: seq<Option<nat>>, P: Plan, init: Write, run: seq<Trace>, t: Table)
    requires RigOk(c) && IsWhole(c, listing, limits, P, init, run) && t in c.us
    ensures t in Last(init.stop, run).jobs && Last(init.stop, run).jobs[t].net == W.LogNet(WholeLog(init, run, t))
  {
    hide Last;
    hide IsRun;
    WriteBooks(c, FirstBatches(c, listing), init, t);
    RunNetIsLogNet(c, limits, P, {}, init.stop, run, t);
    LogNetAppend(LogOf(init.stop, t), RunLog(run, t));
  }

  // ---------------------------------------------------------------------
  // Runs exist
  // ---------------------------------------------------------------------

  function NetAt(before: W.Sinks, t: Table): int {
    if t in before.jobs then before.jobs[t].net else 0
  }

  function Started(work: map<Table, seq<seq<OpSegment>>>, before: W.Sinks): W.Sinks {
    W.Sinks(map t | t in work :: W.Job(work[t], [], multiset{}, multiset{}, multiset{}, [], NetAt(before, t), NetAt(before, t)),
            before.ingest, before.ingest)
  }

  lemma {:induction false} WriteExists(c: Rig, batches: Table -> seq<RecordBatch>, before: W.Sinks) returns (w: Write)
    requires RigOk(c)
    ensures IsWrite(c, Split(c, batches), w) && w.begin == Started(Split(c, batches), before)
    ensures w.stop.jobs.Keys == Elems(c.us)
  {
    var work := Split(c, batches);
    var s := Started(work, before);
    W.StartInv(c.caps, c.us, work, s);
    var steps, stop := W.CanFinish(c.caps, c.us, work, s);
    W.BaseKept(c.caps, c.us, s, steps, stop);
    assert work.Keys == Elems(c.us);
    w := Write(s, steps, stop);
  }

  lemma {:induction false} TraceExists(c: Rig, limit: Option<nat>, P: Plan, F: set<Table>, before: W.Sinks) returns (tr: Trace)
    requires RigOk(c) && Wf(P) && before.jobs.Keys == Elems(c.us)
    ensures IsTrace(c, limit, P, F, tr) && Carries(before, tr.write.begin) && tr.write.stop.jobs.Keys == Elems(c.us)
  {
    var e := EnvFor(c, RunSegment.Boundary(P, limit));
    var cover := SegmentProgress.CoverOf(P);
    SegmentSafety.BeginInv(e, P, F);
    SegmentCounts.BeginCounted(cover, P, F);
    var acts, end := SegmentProgress.CanStop(cover, SegmentCounts.UnitsLeft(cover, P), e, limit, P, F, RunSegment.Begin(P, F));
    var w := WriteExists(c, ReadBatches(e, end.out), before);
    tr := Trace(acts, end, w);
    assert Split(c, ReadBatches(e, end.out)).Keys == Elems(c.us);
  }

  lemma {:induction false} SegmentsExist(c: Rig, limits: seq<Option<nat>>, P: Plan, F: set<Table>, before: W.Sinks) returns (run: seq<Trace>)
    requires RigOk(c) && Wf(P) && before.jobs.Keys == Elems(c.us)
    requires forall i :: 0 <= i < |limits| ==> limits[i] != Some(0)
    ensures IsRun(c, limits, P, F, before, run)
    decreases |limits|
  {
    run := [];
    if limits != [] {
      var tr := TraceExists(c, limits[0], P, F, before);
      TraceWf(c, limits[0], P, F, tr);
      var rest := SegmentsExist(c, limits[1..], tr.end.plan, tr.end.finished, tr.write.stop);
      run := [tr] + rest;
      assert run[1..] == rest;
    }
  }

  /** Runs exist: whatever the positive budgets, no schedule is forced into a dead
      end. */
  lemma {:induction false} RunExists(c: Rig, listing: Listing, limits: seq<Option<nat>>, P: Plan) returns (init: Write, run: seq<Trace>)
    requires RigOk(c) && PlanFor(c, listing, P) && forall i :: 0 <= i < |limits| ==> limits[i] != Some(0)
    ensures IsWhole(c, listing, limits, P, init, run)
  {
    init := WriteExists(c, FirstBatches(c, listing), W.Sinks(map[], 0, 0));
    run := SegmentsExist(c, limits, P, {}, init.stop);
  }
}
