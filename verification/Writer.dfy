/** Concurrent writes to the sink as a step system.  Every table's task walks
    through its batches and their segments; the chunks of a segment run
    concurrently, each taking a per-table permit, then a global permit, then
    writing.  All chunks of a segment finish before the next segment starts. */
module Writer {
  import opened Prelude
  import opened Records
  import opened Coalesce
  import opened Replay

  type Table = string
  type Chunk = seq<Row>

  /** A segment and the chunks of it that have been written, in order. */
  datatype Written = Written(seg: OpSegment, order: seq<Chunk>)

  datatype Job = Job(
    batches: seq<seq<OpSegment>>,  // coalesced batches not yet begun
    segs: seq<OpSegment>,          // segments of the current batch not yet begun
    waiting: multiset<Chunk>,      // chunk tasks without a permit
    holding: multiset<Chunk>,      // with a per-table permit only
    writing: multiset<Chunk>,      // with both permits: in flight
    log: seq<Written>,             // what the sink has received; the last entry is the current segment
    net: int,                      // net_rows of the table
    base: int)                     // net_rows when these writes began

  /** All tables, the cumulative count of rows ingested, and that count when these
      writes began. */
  datatype Sinks = Sinks(jobs: map<Table, Job>, ingest: nat, base: nat)

  /** Chunk size, per-table cap and global cap; the caps are at least one. */
  datatype Caps = Caps(size: nat, perTable: nat, global: nat)

  ghost predicate CapsOk(c: Caps) {
    0 < c.perTable && 0 < c.global
  }

  datatype Step =
    | Batch(t: Table)
    | Segment(t: Table)
    | TakeTable(t: Table, c: Chunk)
    | TakeGlobal(t: Table, c: Chunk)
    | Finish(t: Table, c: Chunk)

  predicate Quiet(j: Job) {
    |j.waiting| == 0 && |j.holding| == 0 && |j.writing| == 0
  }

  predicate Done(j: Job) {
    Quiet(j) && j.segs == [] && j.batches == []
  }

  function NetOf(segs: seq<OpSegment>): int {
    if segs == [] then 0 else SegNet(segs[0]) + NetOf(segs[1..])
  }

  function SegNet(seg: OpSegment): int {
    match seg.op
    case Insert => |seg.rows|
    case Update => 0
    case Delete => -|seg.rows|
  }

  ghost function InFlight(jobs: map<Table, Job>): Table -> nat {
    (t: Table) => if t in jobs then |jobs[t].writing| else 0
  }

  ghost predicate Enabled(caps: Caps, us: seq<Table>, s: Sinks, a: Step) {
    a.t in s.jobs &&
    var j := s.jobs[a.t];
    match a
    case Batch(_) => Quiet(j) && j.segs == [] && j.batches != []
    case Segment(_) => Quiet(j) && j.segs != []
    case TakeTable(_, c) => c in j.waiting && |j.holding| + |j.writing| < caps.perTable
    case TakeGlobal(_, c) => c in j.holding && Sum(us, InFlight(s.jobs)) < caps.global
    case Finish(_, c) => c in j.writing
  }

  function JobStep(size: nat, j: Job, a: Step): Job {
    match a
    case Batch(_) =>
      if j.batches == [] then j
      else j.(batches := j.batches[1..], segs := j.batches[0], net := j.net + NetOf(j.batches[0]))
    case Segment(_) =>
      if j.segs == [] then j
      else j.(segs := j.segs[1..], waiting := multiset(Chunks(size, j.segs[0].rows)),
              log := j.log + [Written(j.segs[0], [])])
    case TakeTable(_, c) => j.(waiting := j.waiting - multiset{c}, holding := j.holding + multiset{c})
    case TakeGlobal(_, c) => j.(holding := j.holding - multiset{c}, writing := j.writing + multiset{c})
    case Finish(_, c) =>
      if j.log == [] then j
      else j.(writing := j.writing - multiset{c}, log := AddWrite(j.log, c))
  }

  function Next(size: nat, s: Sinks, a: Step): Sinks
    requires a.t in s.jobs
  {
    Sinks(s.jobs[a.t := JobStep(size, s.jobs[a.t], a)], s.ingest + (if a.Finish? then |a.c| else 0), s.base)
  }

  ghost predicate Reaches(caps: Caps, us: seq<Table>, s: Sinks, steps: seq<Step>, s': Sinks)
    decreases |steps|
  {
    if steps == [] then s == s'
    else Enabled(caps, us, s, steps[0]) && Reaches(caps, us, Next(caps.size, s, steps[0]), steps[1..], s')
  }

  /** Every table with its coalesced batches split into segments; the ledgers stand
      wherever earlier writes left them. */
  ghost predicate Starts(us: seq<Table>, work: map<Table, seq<seq<OpSegment>>>, s: Sinks) {
    && Distinct(us) && (forall t :: t in s.jobs ==> t in us)
    && s.ingest == s.base && s.jobs.Keys == work.Keys
    && forall t :: t in work ==>
         s.jobs[t] == Job(work[t], [], multiset{}, multiset{}, multiset{}, [], s.jobs[t].base, s.jobs[t].base)
  }

  // ---------------------------------------------------------------------
  // The invariant of one table.
  // ---------------------------------------------------------------------

  function Segs(log: seq<Written>): seq<OpSegment> {
    if log == [] then [] else [log[0].seg] + Segs(log[1..])
  }

  /** All chunks of the entry's segment have been written. */
  ghost predicate Complete(size: nat, w: Written) {
    multiset(w.order) == multiset(Chunks(size, w.seg.rows))
  }

  function Pending(j: Job): multiset<Chunk> {
    j.waiting + j.holding + j.writing
  }

  /** The log, what is left of the batch and the batches left cover all segments
      in order. */
  ghost predicate Covers(all: seq<OpSegment>, log: seq<Written>, segs: seq<OpSegment>, batches: seq<seq<OpSegment>>) {
    Segs(log) + segs + Flat(batches) == all
  }

  /** Every entry but the last is complete. */
  ghost predicate FrontDone(size: nat, log: seq<Written>) {
    forall i :: 0 <= i < |log| - 1 ==> Complete(size, log[i])
  }

  /** What the last entry lacks is exactly what is pending. */
  ghost predicate LastPends(size: nat, log: seq<Written>, pending: multiset<Chunk>) {
    if log == [] then pending == multiset{}
    else Pends(size, log[|log| - 1], pending)
  }

  ghost predicate Pends(size: nat, w: Written, pending: multiset<Chunk>) {
    multiset(w.order) + pending == multiset(Chunks(size, w.seg.rows))
  }

  ghost predicate Booked(net: int, log: seq<Written>, segs: seq<OpSegment>) {
    net == NetOf(Segs(log)) + NetOf(segs)
  }

  ghost predicate JobOk(caps: Caps, all: seq<OpSegment>, j: Job) {
    && Covers(all, j.log, j.segs, j.batches)
    && FrontDone(caps.size, j.log)
    && LastPends(caps.size, j.log, Pending(j))
    && |j.holding| + |j.writing| <= caps.perTable
    && Booked(j.net - j.base, j.log, j.segs)
  }

  lemma {:induction false} SegsSnoc(log: seq<Written>, w: Written)
    ensures Segs(log + [w]) == Segs(log) + [w.seg]
  {
    if log == [] {
      assert [] + [w] == [w] && [w][1..] == [];
    } else {
      assert (log + [w])[1..] == log[1..] + [w];
      SegsSnoc(log[1..], w);
    }
  }

  lemma {:induction false} SegsUpdate(log: seq<Written>, order: seq<Chunk>)
    requires log != []
    ensures Segs(log[|log| - 1 := Written(log[|log| - 1].seg, order)]) == Segs(log)
  {
    var n := |log| - 1;
    var w := Written(log[n].seg, order);
    SegsSnoc(log[..n], w);
    SegsSnoc(log[..n], log[n]);
    assert log[n := w] == log[..n] + [w] && log == log[..n] + [log[n]];
  }

  lemma {:induction false} NetAppend(a: seq<OpSegment>, b: seq<OpSegment>)
    ensures NetOf(a + b) == NetOf(a) + NetOf(b)
  {
    if a == [] {
      assert a + b == b;
    } else {
      assert (a + b)[1..] == a[1..] + b;
      NetAppend(a[1..], b);
    }
  }

  lemma {:induction false} EmptyPending(j: Job)
    requires Quiet(j)
    ensures Pending(j) == multiset{}
  {
    assert |Pending(j)| == 0;
  }

  lemma {:induction false} QuietComplete(size: nat, log: seq<Written>)
    requires FrontDone(size, log) && LastPends(size, log, multiset{})
    ensures forall i :: 0 <= i < |log| ==> Complete(size, log[i])
  {
    if log != [] {
      var w := log[|log| - 1];
      assert multiset(w.order) + multiset{} == multiset(w.order);
    }
  }

  lemma {:induction false} CoversBatch(all: seq<OpSegment>, log: seq<Written>, batches: seq<seq<OpSegment>>)
    requires Covers(all, log, [], batches) && batches != []
    ensures Covers(all, log, batches[0], batches[1..])
  {
    assert Segs(log) + [] + (batches[0] + Flat(batches[1..])) == Segs(log) + batches[0] + Flat(batches[1..]);
  }

  lemma {:induction false} CoversSegment(all: seq<OpSegment>, log: seq<Written>, segs: seq<OpSegment>, batches: seq<seq<OpSegment>>, w: Written)
    requires Covers(all, log, segs, batches) && segs != [] && w.seg == segs[0]
    ensures Covers(all, log + [w], segs[1..], batches)
  {
    SegsSnoc(log, w);
    assert Segs(log) + segs + Flat(batches) == Segs(log) + [segs[0]] + segs[1..] + Flat(batches);
  }

  lemma {:induction false} BookedSegment(net: int, log: seq<Written>, segs: seq<OpSegment>, w: Written)
    requires Booked(net, log, segs) && segs != [] && w.seg == segs[0]
    ensures Booked(net, log + [w], segs[1..])
  {
    SegsSnoc(log, w);
    NetAppend(Segs(log), [w.seg]);
    assert [w.seg][1..] == [] && NetOf([w.seg]) == SegNet(w.seg) + NetOf([]);
  }

  lemma {:induction false} FrontSnoc(size: nat, log: seq<Written>, w: Written)
    requires FrontDone(size, log) && LastPends(size, log, multiset{})
    ensures FrontDone(size, log + [w])
  {
    QuietComplete(size, log);
  }

  lemma {:induction false} PendsFresh(size: nat, seg: OpSegment)
    ensures Pends(size, Written(seg, []), multiset(Chunks(size, seg.rows)))
  {
  }

  lemma {:induction false} BatchKeeps(caps: Caps, all: seq<OpSegment>, j: Job, a: Step)
    requires JobOk(caps, all, j) && a.Batch? && Quiet(j) && j.segs == [] && j.batches != []
    ensures JobOk(caps, all, JobStep(caps.size, j, a))
  {
    var j' := JobStep(caps.size, j, a);
    CoversBatch(all, j.log, j.batches);
    assert Booked(j'.net - j'.base, j'.log, j'.segs) by {
      assert NetOf([]) == 0;
    }
    assert Pending(j') == Pending(j);
  }

  lemma {:induction false} SegmentKeeps(caps: Caps, all: seq<OpSegment>, j: Job, a: Step)
    requires JobOk(caps, all, j) && a.Segment? && Quiet(j) && j.segs != []
    ensures JobOk(caps, all, JobStep(caps.size, j, a))
  {
    var j', w := JobStep(caps.size, j, a), Written(j.segs[0], []);
    EmptyPending(j);
    CoversSegment(all, j.log, j.segs, j.batches, w);
    BookedSegment(j.net - j.base, j.log, j.segs, w);
    FrontSnoc(caps.size, j.log, w);
    PendsFresh(caps.size, w.seg);
    assert Pending(j') == multiset(Chunks(caps.size, w.seg.rows)) by {
      QuietParts(j);
    }
  }

  lemma {:induction false} QuietParts(j: Job)
    requires Quiet(j)
    ensures j.waiting == j.holding == j.writing == multiset{}
  {
  }

  lemma {:induction false} PermitKeeps(caps: Caps, all: seq<OpSegment>, j: Job, a: Step)
    requires JobOk(caps, all, j)
    requires || (a.TakeTable? && a.c in j.waiting && |j.holding| + |j.writing| < caps.perTable)
             || (a.TakeGlobal? && a.c in j.holding)
    ensures JobOk(caps, all, JobStep(caps.size, j, a))
  {
    var j' := JobStep(caps.size, j, a);
    MovePending(j, a);
    assert j'.log == j.log && j'.segs == j.segs && j'.batches == j.batches && j'.net == j.net;
  }

  lemma {:induction false} MovePending(j: Job, a: Step)
    requires (a.TakeTable? && a.c in j.waiting) || (a.TakeGlobal? && a.c in j.holding)
    ensures Pending(JobStep(0, j, a)) == Pending(j)
    ensures |JobStep(0, j, a).holding| + |JobStep(0, j, a).writing| == |j.holding| + |j.writing| + if a.TakeTable? then 1 else 0
  {
  }

  function AddWrite(log: seq<Written>, c: Chunk): seq<Written>
    requires log != []
  {
    var n := |log| - 1;
    log[n := Written(log[n].seg, log[n].order + [c])]
  }

  lemma {:induction false} LogFinish(size: nat, log: seq<Written>, pending: multiset<Chunk>, c: Chunk)
    requires FrontDone(size, log) && LastPends(size, log, pending) && c in pending
    ensures log != [] && FrontDone(size, AddWrite(log, c)) && LastPends(size, AddWrite(log, c), pending - multiset{c})
    ensures Segs(AddWrite(log, c)) == Segs(log)
  {
    var n := |log| - 1;
    SegsUpdate(log, log[n].order + [c]);
    PendsFinish(size, log[n], pending, c);
    assert forall i :: 0 <= i < n ==> AddWrite(log, c)[i] == log[i];
  }

  lemma {:induction false} FinishPending(j: Job, c: Chunk)
    requires c in j.writing
    ensures c in Pending(j) && Pending(j.(writing := j.writing - multiset{c})) == Pending(j) - multiset{c}
    ensures |j.writing - multiset{c}| == |j.writing| - 1
  {
  }

  lemma {:induction false} FinishKeeps(caps: Caps, all: seq<OpSegment>, j: Job, a: Step)
    requires JobOk(caps, all, j) && a.Finish? && a.c in j.writing
    ensures j.log != [] && JobOk(caps, all, JobStep(caps.size, j, a))
  {
    FinishPending(j, a.c);
    LogFinish(caps.size, j.log, Pending(j), a.c);
    var j' := JobStep(caps.size, j, a);
    assert j' == j.(writing := j.writing - multiset{a.c}, log := AddWrite(j.log, a.c));
    assert Pending(j') == Pending(j) - multiset{a.c};
  }

  lemma {:induction false} PendsFinish(size: nat, w: Written, pending: multiset<Chunk>, c: Chunk)
    requires Pends(size, w, pending) && c in pending
    ensures Pends(size, Written(w.seg, w.order + [c]), pending - multiset{c})
  {
    assert multiset(w.order + [c]) == multiset(w.order) + multiset{c};
    assert multiset{c} + (pending - multiset{c}) == pending;
  }

  lemma {:induction false} JobKeeps(caps: Caps, us: seq<Table>, all: seq<OpSegment>, s: Sinks, a: Step)
    requires Enabled(caps, us, s, a) && JobOk(caps, all, s.jobs[a.t])
    ensures JobOk(caps, all, JobStep(caps.size, s.jobs[a.t], a))
  {
    match a
    case Batch(_) => BatchKeeps(caps, all, s.jobs[a.t], a);
    case Segment(_) => SegmentKeeps(caps, all, s.jobs[a.t], a);
    case TakeTable(_, _) => PermitKeeps(caps, all, s.jobs[a.t], a);
    case TakeGlobal(_, _) => PermitKeeps(caps, all, s.jobs[a.t], a);
    case Finish(_, _) => FinishKeeps(caps, all, s.jobs[a.t], a);
  }

  // ---------------------------------------------------------------------
  // The invariant of all tables.
  // ---------------------------------------------------------------------

  function LogRows(log: seq<Written>): nat {
    if log == [] then 0 else |Flat(log[0].order)| + LogRows(log[1..])
  }

  ghost function Received(jobs: map<Table, Job>): Table -> nat {
    (t: Table) => if t in jobs then LogRows(jobs[t].log) else 0
  }

  ghost predicate JobsOk(caps: Caps, work: map<Table, seq<seq<OpSegment>>>, jobs: map<Table, Job>) {
    forall t :: t in jobs ==> t in work && JobOk(caps, Flat(work[t]), jobs[t])
  }

  lemma {:induction false} JobsUpdate(caps: Caps, work: map<Table, seq<seq<OpSegment>>>, jobs: map<Table, Job>, t: Table, j: Job)
    requires JobsOk(caps, work, jobs) && t in work && JobOk(caps, Flat(work[t]), j)
    ensures JobsOk(caps, work, jobs[t := j])
  {
    forall u | u in jobs[t := j]
      ensures u in work && JobOk(caps, Flat(work[u]), jobs[t := j][u])
    {
      if u != t {
        assert jobs[t := j][u] == jobs[u];
      }
    }
  }

  ghost predicate Inv(caps: Caps, us: seq<Table>, work: map<Table, seq<seq<OpSegment>>>, s: Sinks) {
    && CapsOk(caps) && Distinct(us) && (forall t :: t in s.jobs ==> t in us)
    && s.jobs.Keys == work.Keys
    && JobsOk(caps, work, s.jobs)
    && Sum(us, InFlight(s.jobs)) <= caps.global
    && s.ingest == s.base + Sum(us, Received(s.jobs))
  }

  lemma {:induction false} SumNothing(us: seq<Table>, f: Table -> nat)
    requires forall u :: u in us ==> f(u) == 0
    ensures Sum(us, f) == 0
  {
    if us != [] {
      SumNothing(us[1..], f);
    }
  }

  lemma {:induction false} StartInv(caps: Caps, us: seq<Table>, work: map<Table, seq<seq<OpSegment>>>, s: Sinks)
    requires CapsOk(caps) && Starts(us, work, s)
    ensures Inv(caps, us, work, s)
  {
    SumNothing(us, InFlight(s.jobs));
    SumNothing(us, Received(s.jobs));
  }

  lemma {:induction false} LogRowsSnoc(log: seq<Written>, w: Written)
    ensures LogRows(log + [w]) == LogRows(log) + |Flat(w.order)|
  {
    if log == [] {
      assert [] + [w] == [w] && [w][1..] == [];
    } else {
      assert (log + [w])[1..] == log[1..] + [w];
      LogRowsSnoc(log[1..], w);
    }
  }

  /** Only a finished chunk adds to what the sink has received. */
  lemma {:induction false} ReceivedStep(size: nat, j: Job, a: Step)
    requires a.Finish? ==> j.log != []
    ensures LogRows(JobStep(size, j, a).log) == LogRows(j.log) + if a.Finish? then |a.c| else 0
  {
    if a.Finish? {
      var n := |j.log| - 1;
      var w := Written(j.log[n].seg, j.log[n].order + [a.c]);
      LogRowsSnoc(j.log[..n], w);
      LogRowsSnoc(j.log[..n], j.log[n]);
      assert j.log[n := w] == j.log[..n] + [w] && j.log == j.log[..n] + [j.log[n]];
      FlatSnoc(j.log[n].order, a.c);
    } else if a.Segment? && j.segs != [] {
      LogRowsSnoc(j.log, Written(j.segs[0], []));
    }
  }

  lemma {:induction false} InFlightStep(caps: Caps, us: seq<Table>, s: Sinks, a: Step)
    requires Enabled(caps, us, s, a) && Distinct(us) && a.t in us && Sum(us, InFlight(s.jobs)) <= caps.global
    ensures Sum(us, InFlight(Next(caps.size, s, a).jobs)) <= caps.global
  {
    var s' := Next(caps.size, s, a);
    SumOne(us, InFlight(s.jobs), InFlight(s'.jobs), a.t);
  }

  lemma {:induction false} IngestStep(caps: Caps, us: seq<Table>, s: Sinks, a: Step)
    requires a.t in s.jobs && Distinct(us) && a.t in us && s.ingest == s.base + Sum(us, Received(s.jobs))
    requires a.Finish? ==> s.jobs[a.t].log != []
    ensures Next(caps.size, s, a).ingest == s.base + Sum(us, Received(Next(caps.size, s, a).jobs))
  {
    var s' := Next(caps.size, s, a);
    ReceivedStep(caps.size, s.jobs[a.t], a);
    SumOne(us, Received(s.jobs), Received(s'.jobs), a.t);
  }

  lemma {:induction false} JobsStep(caps: Caps, us: seq<Table>, work: map<Table, seq<seq<OpSegment>>>, s: Sinks, a: Step)
    requires JobsOk(caps, work, s.jobs) && Enabled(caps, us, s, a)
    ensures JobsOk(caps, work, Next(caps.size, s, a).jobs)
    ensures a.Finish? ==> s.jobs[a.t].log != []
  {
    hide JobStep;
    hide JobOk;
    var all := Flat(work[a.t]);
    assert JobOk(caps, all, s.jobs[a.t]);
    JobKeeps(caps, us, all, s, a);
    if a.Finish? {
      FinishKeeps(caps, all, s.jobs[a.t], a);
    }
    JobsUpdate(caps, work, s.jobs, a.t, JobStep(caps.size, s.jobs[a.t], a));
  }

  /** Every step keeps both permit bounds, the barrier and the ledgers. */
  lemma {:induction false} StepKeeps(caps: Caps, us: seq<Table>, work: map<Table, seq<seq<OpSegment>>>, s: Sinks, a: Step)
    requires Inv(caps, us, work, s) && Enabled(caps, us, s, a)
    ensures Inv(caps, us, work, Next(caps.size, s, a))
  {
    hide JobStep;
    hide JobOk;
    hide JobsOk;
    JobsStep(caps, us, work, s, a);
    IngestStep(caps, us, s, a);
    InFlightStep(caps, us, s, a);
  }

  lemma {:induction false} RunKeeps(caps: Caps, us: seq<Table>, work: map<Table, seq<seq<OpSegment>>>, s: Sinks, steps: seq<Step>, s': Sinks)
    requires Inv(caps, us, work, s) && Reaches(caps, us, s, steps, s')
    ensures Inv(caps, us, work, s')
    decreases |steps|
  {
    if steps != [] {
      StepKeeps(caps, us, work, s, steps[0]);
      RunKeeps(caps, us, work, Next(caps.size, s, steps[0]), steps[1..], s');
    }
  }

  /** Two-level permits: in every interleaving the in-flight writes respect both
      caps, and a segment begins only after all chunks of the previous ones have
      been written. */
  lemma {:induction false} PermitsRespected(caps: Caps, us: seq<Table>, work: map<Table, seq<seq<OpSegment>>>, s0: Sinks, steps: seq<Step>, s: Sinks)
    requires CapsOk(caps) && Starts(us, work, s0) && Reaches(caps, us, s0, steps, s)
    ensures Sum(us, InFlight(s.jobs)) <= caps.global
    ensures forall t :: t in s.jobs ==> |s.jobs[t].writing| <= caps.perTable
    ensures forall t, i :: t in s.jobs && 0 <= i < |s.jobs[t].log| - 1 ==> Complete(caps.size, s.jobs[t].log[i])
  {
    StartInv(caps, us, work, s0);
    RunKeeps(caps, us, work, s0, steps, s);
    forall t | t in s.jobs
      ensures |s.jobs[t].writing| <= caps.perTable
      ensures forall i :: 0 <= i < |s.jobs[t].log| - 1 ==> Complete(caps.size, s.jobs[t].log[i])
    {
      assert JobOk(caps, Flat(work[t]), s.jobs[t]);
    }
  }

  // ---------------------------------------------------------------------
  // The log is the history
  // ---------------------------------------------------------------------

  /** The chunks in the order a log lists them. */
  function Orders(log: seq<Written>): seq<Chunk> {
    if log == [] then [] else Orders(log[..|log| - 1]) + log[|log| - 1].order
  }

  /** The chunks whose writes to a table finish along a run, in that order. */
  function Finished(steps: seq<Step>, t: Table): seq<Chunk> {
    if steps == [] then []
    else (if steps[0].Finish? && steps[0].t == t then [steps[0].c] else []) + Finished(steps[1..], t)
  }

  lemma {:induction false} AddWriteOrders(log: seq<Written>, c: Chunk)
    requires log != []
    ensures Orders(AddWrite(log, c)) == Orders(log) + [c]
  {
    var n := |log| - 1;
    assert AddWrite(log, c)[..n] == log[..n];
  }

  lemma {:induction false} JobHistory(caps: Caps, all: seq<OpSegment>, j: Job, a: Step)
    requires JobOk(caps, all, j) && (a.Finish? ==> a.c in j.writing)
    ensures Orders(JobStep(caps.size, j, a).log) == Orders(j.log) + if a.Finish? then [a.c] else []
  {
    if a.Finish? {
      assert a.c in Pending(j);
      assert j.log != [];
      AddWriteOrders(j.log, a.c);
    } else if a.Segment? && j.segs != [] {
      var log := j.log + [Written(j.segs[0], [])];
      assert log[..|log| - 1] == j.log;
    }
  }

  lemma {:induction false} StepHistory(caps: Caps, us: seq<Table>, work: map<Table, seq<seq<OpSegment>>>, s: Sinks, a: Step, t: Table)
    requires Inv(caps, us, work, s) && Enabled(caps, us, s, a) && t in s.jobs
    ensures var s' := Next(caps.size, s, a);
      t in s'.jobs && Orders(s'.jobs[t].log) == Orders(s.jobs[t].log) + if a.Finish? && a.t == t then [a.c] else []
  {
    hide JobOk, JobStep, Orders, Inv;
    InvJob(caps, us, work, s, t);
    if a.t == t {
      JobHistory(caps, Flat(work[t]), s.jobs[t], a);
    } else {
      assert Orders(s.jobs[t].log) + [] == Orders(s.jobs[t].log);
    }
  }

  lemma {:induction false} InvJob(caps: Caps, us: seq<Table>, work: map<Table, seq<seq<OpSegment>>>, s: Sinks, t: Table)
    requires Inv(caps, us, work, s) && t in s.jobs
    ensures t in work && JobOk(caps, Flat(work[t]), s.jobs[t])
  {
    hide JobOk;
  }

  /** What the sink has received of a table is what has finished, in the order in which
      it finished. */
  lemma {:induction false} LogIsHistory(caps: Caps, us: seq<Table>, work: map<Table, seq<seq<OpSegment>>>, s: Sinks, steps: seq<Step>, s': Sinks, t: Table)
    requires Inv(caps, us, work, s) && Reaches(caps, us, s, steps, s') && t in s.jobs
    ensures t in s'.jobs && Orders(s'.jobs[t].log) == Orders(s.jobs[t].log) + Finished(steps, t)
    decreases |steps|
  {
    hide Inv, Orders, JobStep;
    if steps != [] {
      assert steps[0].t in s.jobs;
      hide Enabled;
      StepKeeps(caps, us, work, s, steps[0]);
      StepHistory(caps, us, work, s, steps[0], t);
      hide Next;
      LogIsHistory(caps, us, work, Next(caps.size, s, steps[0]), steps[1..], s', t);
    }
  }

  lemma {:induction false} SumPositive(us: seq<Table>, f: Table -> nat) returns (u: Table)
    requires 0 < Sum(us, f)
    ensures u in us && 0 < f(u)
  {
    if 0 < f(us[0]) {
      u := us[0];
    } else {
      u := SumPositive(us[1..], f);
    }
  }

  /** No deadlock: until everything is written, some step is enabled. */
  lemma {:induction false} NeverStuck(caps: Caps, us: seq<Table>, work: map<Table, seq<seq<OpSegment>>>, s: Sinks, t: Table) returns (a: Step)
    requires Inv(caps, us, work, s) && t in s.jobs && !Done(s.jobs[t])
    ensures Enabled(caps, us, s, a)
  {
    if 0 < Sum(us, InFlight(s.jobs)) {
      var u := SumPositive(us, InFlight(s.jobs));
      var c :| c in s.jobs[u].writing;
      return Finish(u, c);
    }
    var j := s.jobs[t];
    if |j.writing| > 0 {
      var c :| c in j.writing;
      return Finish(t, c);
    } else if |j.holding| > 0 {
      var c :| c in j.holding;
      return TakeGlobal(t, c);
    } else if |j.waiting| > 0 {
      var c :| c in j.waiting;
      return TakeTable(t, c);
    } else if j.segs != [] {
      return Segment(t);
    } else {
      return Batch(t);
    }
  }

  // ---------------------------------------------------------------------
  // Every run of the writers is finite.
  // ---------------------------------------------------------------------

  function SegsWork(size: nat, segs: seq<OpSegment>): nat {
    if segs == [] then 0 else 1 + 3 * |Chunks(size, segs[0].rows)| + SegsWork(size, segs[1..])
  }

  function BatchesWork(size: nat, batches: seq<seq<OpSegment>>): nat {
    if batches == [] then 0 else 1 + SegsWork(size, batches[0]) + BatchesWork(size, batches[1..])
  }

  /** The steps a table still has before it. */
  function Left(size: nat, j: Job): nat {
    3 * |j.waiting| + 2 * |j.holding| + |j.writing| + SegsWork(size, j.segs) + BatchesWork(size, j.batches)
  }

  ghost function LeftOf(size: nat, jobs: map<Table, Job>): Table -> nat {
    (t: Table) => if t in jobs then Left(size, jobs[t]) else 0
  }

  /** A table takes exactly as many steps as it has left. */
  lemma {:induction false} JobDescends(caps: Caps, us: seq<Table>, s: Sinks, a: Step)
    requires Enabled(caps, us, s, a) && (a.Finish? ==> s.jobs[a.t].log != [])
    ensures Left(caps.size, JobStep(caps.size, s.jobs[a.t], a)) + 1 == Left(caps.size, s.jobs[a.t])
  {
    var j := s.jobs[a.t];
    match a
    case Batch(_) => assert SegsWork(caps.size, []) == 0;
    case Segment(_) => assert |multiset(Chunks(caps.size, j.segs[0].rows))| == |Chunks(caps.size, j.segs[0].rows)|;
    case TakeTable(_, _) =>
    case TakeGlobal(_, _) =>
    case Finish(_, _) =>
  }

  /** Hence every run of the writers has the same length, and with `NeverStuck`
      every maximal run ends with all tables done. */
  lemma {:induction false} StepDescends(caps: Caps, us: seq<Table>, work: map<Table, seq<seq<OpSegment>>>, s: Sinks, a: Step)
    requires Inv(caps, us, work, s) && Enabled(caps, us, s, a)
    ensures Sum(us, LeftOf(caps.size, Next(caps.size, s, a).jobs)) + 1 == Sum(us, LeftOf(caps.size, s.jobs))
  {
    hide JobStep;
    hide Left;
    hide JobOk;
    JobsStep(caps, us, work, s, a);
    JobDescends(caps, us, s, a);
    SumOne(us, LeftOf(caps.size, s.jobs), LeftOf(caps.size, Next(caps.size, s, a).jobs), a.t);
  }

  lemma {:induction false} RunLength(caps: Caps, us: seq<Table>, work: map<Table, seq<seq<OpSegment>>>, s: Sinks, steps: seq<Step>, s': Sinks)
    requires Inv(caps, us, work, s) && Reaches(caps, us, s, steps, s')
    ensures |steps| + Sum(us, LeftOf(caps.size, s'.jobs)) == Sum(us, LeftOf(caps.size, s.jobs))
    decreases |steps|
  {
    if steps != [] {
      StepKeeps(caps, us, work, s, steps[0]);
      StepDescends(caps, us, work, s, steps[0]);
      RunLength(caps, us, work, Next(caps.size, s, steps[0]), steps[1..], s');
    }
  }

  /** From every state that can occur, some schedule writes everything. */
  lemma {:induction false} CanFinish(caps: Caps, us: seq<Table>, work: map<Table, seq<seq<OpSegment>>>, s: Sinks)
    returns (steps: seq<Step>, s': Sinks)
    requires Inv(caps, us, work, s)
    ensures Reaches(caps, us, s, steps, s') && forall t :: t in s'.jobs ==> Done(s'.jobs[t])
    decreases Sum(us, LeftOf(caps.size, s.jobs))
  {
    if forall t :: t in s.jobs ==> Done(s.jobs[t]) {
      return [], s;
    }
    hide Inv;
    hide Next;
    var t :| t in s.jobs && !Done(s.jobs[t]);
    var a := NeverStuck(caps, us, work, s, t);
    StepKeeps(caps, us, work, s, a);
    StepDescends(caps, us, work, s, a);
    var rest;
    rest, s' := CanFinish(caps, us, work, Next(caps.size, s, a));
    steps := [a] + rest;
    assert steps[1..] == rest;
  }

  // ---------------------------------------------------------------------
  // Ledgers and meaning at quiescence.
  // ---------------------------------------------------------------------

  /** Rows inserted minus rows deleted, as the sink's write log has them. */
  function LogNet(log: seq<Written>): int {
    if log == [] then 0 else SegNet(OpSegment(log[0].seg.op, Flat(log[0].order))) + LogNet(log[1..])
  }

  lemma {:induction false} CompleteRows(size: nat, w: Written)
    requires Complete(size, w)
    ensures |Flat(w.order)| == |w.seg.rows|
  {
    FlatPerm(w.order, Chunks(size, w.seg.rows));
    ChunksFlat(size, w.seg.rows);
    assert |multiset(Flat(w.order))| == |Flat(w.order)| && |multiset(w.seg.rows)| == |w.seg.rows|;
  }

  lemma {:induction false} CompleteNet(size: nat, log: seq<Written>)
    requires forall i :: 0 <= i < |log| ==> Complete(size, log[i])
    ensures LogNet(log) == NetOf(Segs(log))
  {
    if log != [] {
      CompleteRows(size, log[0]);
      CompleteNet(size, log[1..]);
      assert LogNet(log) == SegNet(OpSegment(log[0].seg.op, Flat(log[0].order))) + LogNet(log[1..]);
      assert Segs(log)[1..] == Segs(log[1..]) && Segs(log)[0] == log[0].seg;
    }
  }

  lemma {:induction false} DoneComplete(caps: Caps, all: seq<OpSegment>, j: Job)
    requires JobOk(caps, all, j) && Done(j)
    ensures Segs(j.log) == all && forall i :: 0 <= i < |j.log| ==> Complete(caps.size, j.log[i])
  {
    EmptyPending(j);
    QuietComplete(caps.size, j.log);
    assert Segs(j.log) + [] + [] == Segs(j.log);
  }

  lemma {:induction false} BaseKept(caps: Caps, us: seq<Table>, s: Sinks, steps: seq<Step>, s': Sinks)
    requires Reaches(caps, us, s, steps, s')
    ensures s'.base == s.base && s'.jobs.Keys == s.jobs.Keys && forall t :: t in s.jobs ==> s'.jobs[t].base == s.jobs[t].base
    decreases |steps|
  {
    if steps != [] {
      BaseKept(caps, us, Next(caps.size, s, steps[0]), steps[1..], s');
    }
  }

  /** Ledgers match the sink: at any moment `ingest_rows_total` has grown by the rows
      of the write log, and once a table is done its `net_rows` has grown by what the
      log inserted minus what it deleted, for every coalescing, segmentation and
      chunking. */
  lemma {:induction false} LedgersMatch(caps: Caps, us: seq<Table>, work: map<Table, seq<seq<OpSegment>>>, s0: Sinks, steps: seq<Step>, s: Sinks)
    requires CapsOk(caps) && Starts(us, work, s0) && Reaches(caps, us, s0, steps, s)
    ensures s.ingest == s0.ingest + Sum(us, Received(s.jobs)) && s.jobs.Keys == work.Keys
    ensures forall t :: t in s.jobs && Done(s.jobs[t]) ==>
      s.jobs[t].net == s0.jobs[t].net + LogNet(s.jobs[t].log) && Segs(s.jobs[t].log) == Flat(work[t])
  {
    StartInv(caps, us, work, s0);
    RunKeeps(caps, us, work, s0, steps, s);
    BaseKept(caps, us, s0, steps, s);
    forall t | t in s.jobs && Done(s.jobs[t])
      ensures s.jobs[t].net == s0.jobs[t].net + LogNet(s.jobs[t].log) && Segs(s.jobs[t].log) == Flat(work[t])
    {
      DoneComplete(caps, Flat(work[t]), s.jobs[t]);
      CompleteNet(caps.size, s.jobs[t].log);
    }
  }

  // ---------------------------------------------------------------------
  // The ledgers in terms of source rows.
  // ---------------------------------------------------------------------

  /** What a source row, as its `_op` text says, adds to the number of rows. */
  function RowNet(sc: Schema, row: Row): int {
    if Says(sc, row, "u") then 0 else if Says(sc, row, "d") then -1 else 1
  }

  /** Inserted minus deleted source rows. */
  function RowsNet(sc: Schema, rows: seq<Row>): int {
    if rows == [] then 0 else RowNet(sc, rows[0]) + RowsNet(sc, rows[1..])
  }

  lemma {:induction false} RowsNetAppend(sc: Schema, xs: seq<Row>, ys: seq<Row>)
    ensures RowsNet(sc, xs + ys) == RowsNet(sc, xs) + RowsNet(sc, ys)
  {
    if xs == [] {
      assert xs + ys == ys;
    } else {
      assert (xs + ys)[1..] == xs[1..] + ys;
      RowsNetAppend(sc, xs[1..], ys);
    }
  }

  lemma {:induction false} RowsNetUniform(sc: Schema, op: InsertOp, rows: seq<Row>)
    requires forall r :: r in rows ==> RowOp(sc, r) == op
    ensures RowsNet(sc, rows) == SegNet(OpSegment(op, rows))
  {
    if rows != [] {
      assert rows[0] in rows;
      RowsNetUniform(sc, op, rows[1..]);
    }
  }

  /** A sort does not change the balance. */
  lemma {:induction false} RowsNetPerm(sc: Schema, xs: seq<Row>, ys: seq<Row>)
    requires multiset(xs) == multiset(ys)
    ensures RowsNet(sc, xs) == RowsNet(sc, ys)
    decreases |xs|
  {
    if xs == [] {
      PermEmpty(ys);
    } else {
      var i := PermRest(xs, ys);
      RowsNetPerm(sc, xs[1..], ys[..i] + ys[i + 1..]);
      RowsNetTakeOut(sc, ys, i);
    }
  }

  lemma {:induction false} RowsNetTakeOut(sc: Schema, ys: seq<Row>, i: nat)
    requires i < |ys|
    ensures RowsNet(sc, ys) == RowNet(sc, ys[i]) + RowsNet(sc, ys[..i] + ys[i + 1..])
  {
    assert ys[i..][1..] == ys[i + 1..];
    assert ys == ys[..i] + ys[i..];
    RowsNetAppend(sc, ys[..i], ys[i..]);
    RowsNetAppend(sc, ys[..i], ys[i + 1..]);
  }

  /** Rows of a list of segments. */
  function SegRows(segs: seq<OpSegment>): nat {
    if segs == [] then 0 else |segs[0].rows| + SegRows(segs[1..])
  }

  lemma {:induction false} SegRowsAppend(a: seq<OpSegment>, b: seq<OpSegment>)
    ensures SegRows(a + b) == SegRows(a) + SegRows(b)
  {
    if a == [] {
      assert a + b == b;
    } else {
      assert (a + b)[1..] == a[1..] + b;
      SegRowsAppend(a[1..], b);
    }
  }

  /** The runs of a row list balance as its rows do. */
  lemma {:induction false} RunsNet(sc: Schema, rows: seq<Row>)
    requires sc.hasOp
    ensures NetOf(Runs(rows)) == RowsNet(sc, rows) && SegRows(Runs(rows)) == |rows|
    decreases |rows|
  {
    if rows != [] {
      var n := RunLen(rows, rows[0].op);
      var run, rest := rows[..n], rows[n..];
      RunOps(rows, rows[0].op);
      assert rows == run + rest;
      RowsNetUniform(sc, ToOp(rows[0].op), run);
      RowsNetAppend(sc, run, rest);
      assert Runs(rows)[1..] == Runs(rest);
      RunsNet(sc, rest);
    }
  }

  lemma {:induction false} SegmentsNet(sc: Schema, sort: seq<Row> -> seq<Row>, batch: RecordBatch)
    requires Sorts(sort) && Declared(sc, batch)
    ensures NetOf(Segments(sc, sort, batch)) == RowsNet(sc, batch) && SegRows(Segments(sc, sort, batch)) == |batch|
  {
    if InsertOnly(sc, batch) {
      RowsNetUniform(sc, Insert, batch);
      var seg := OpSegment(Insert, batch);
      assert [seg][1..] == [];
      assert NetOf([seg]) == SegNet(seg) + NetOf([]);
      assert SegRows([seg]) == |batch| + SegRows([]);
    } else {
      var rows := if sc.hasIndex then sort(batch) else batch;
      assert IsSort(sort(batch), batch);
      RowsNetPerm(sc, rows, batch);
      assert |rows| == |multiset(rows)| == |multiset(batch)|;
      RunsNet(sc, rows);
    }
  }

  lemma {:induction false} BatchesNet(sc: Schema, sort: seq<Row> -> seq<Row>, batches: seq<RecordBatch>)
    requires Sorts(sort) && Declared(sc, Flat(batches))
    ensures NetOf(Flat(SplitAll(sc, sort, batches))) == RowsNet(sc, Flat(batches))
    ensures SegRows(Flat(SplitAll(sc, sort, batches))) == |Flat(batches)|
    decreases |batches|
  {
    if batches != [] {
      var first, rest := Segments(sc, sort, batches[0]), SplitAll(sc, sort, batches[1..]);
      DeclaredParts(sc, batches[0], Flat(batches[1..]));
      SegmentsNet(sc, sort, batches[0]);
      BatchesNet(sc, sort, batches[1..]);
      assert SplitAll(sc, sort, batches)[1..] == rest;
      assert Flat(SplitAll(sc, sort, batches)) == first + Flat(rest);
      NetAppend(first, Flat(rest));
      SegRowsAppend(first, Flat(rest));
      RowsNetAppend(sc, batches[0], Flat(batches[1..]));
    }
  }

  lemma {:induction false} CompleteLogRows(size: nat, log: seq<Written>)
    requires forall i :: 0 <= i < |log| ==> Complete(size, log[i])
    ensures LogRows(log) == SegRows(Segs(log))
  {
    if log != [] {
      CompleteRows(size, log[0]);
      CompleteLogRows(size, log[1..]);
      assert Segs(log)[1..] == Segs(log[1..]) && Segs(log)[0] == log[0].seg;
    }
  }

  /** In terms of source rows: a table that is done has had its net rows grow by its
      inserted minus its deleted source rows, and its log holds as many rows as its
      source.  Sorting is a permutation, so no order of the index is needed. */
  lemma {:induction false} LedgersCountRows(caps: Caps, us: seq<Table>, work: map<Table, seq<seq<OpSegment>>>, s0: Sinks, steps: seq<Step>, s: Sinks,
                                            sc: Schema, sort: seq<Row> -> seq<Row>, t: Table, batches: seq<RecordBatch>)
    requires CapsOk(caps) && Starts(us, work, s0) && Reaches(caps, us, s0, steps, s)
    requires t in work && work[t] == SplitAll(sc, sort, batches) && t in s.jobs && t in s0.jobs && Done(s.jobs[t])
    requires Sorts(sort) && Declared(sc, Flat(batches))
    ensures s.jobs[t].net == s0.jobs[t].net + RowsNet(sc, Flat(batches))
    ensures LogRows(s.jobs[t].log) == |Flat(batches)|
  {
    LedgersMatch(caps, us, work, s0, steps, s);
    StartInv(caps, us, work, s0);
    RunKeeps(caps, us, work, s0, steps, s);
    var log := s.jobs[t].log;
    DoneComplete(caps, Flat(work[t]), s.jobs[t]);
    CompleteNet(caps.size, log);
    CompleteLogRows(caps.size, log);
    BatchesNet(sc, sort, batches);
  }

  /** What the write log does to one key of the target. */
  ghost predicate LogWrites(log: seq<Written>, k: Key, b: Bag, b': Bag)
    decreases |log|
  {
    if log == [] then b == b'
    else exists m :: WritesAll(log[0].seg.op, log[0].order, k, b, m) && LogWrites(log[1..], k, m, b')
  }

  lemma {:induction false} LogIsSegments(size: nat, log: seq<Written>, k: Key, b: Bag, b': Bag)
    requires (forall i :: 0 <= i < |log| ==> Complete(size, log[i])) && LogWrites(log, k, b, b')
    ensures SegmentsWrite(size, Segs(log), k, b, b')
    decreases |log|
  {
    if log != [] {
      var m :| WritesAll(log[0].seg.op, log[0].order, k, b, m) && LogWrites(log[1..], k, m, b');
      assert Complete(size, log[0]);
      assert SegmentWrites(size, log[0].seg, k, b, m);
      LogIsSegments(size, log[1..], k, m, b');
      assert Segs(log)[1..] == Segs(log[1..]);
    }
  }

  function SplitAll(sc: Schema, sort: seq<Row> -> seq<Row>, batches: seq<RecordBatch>): seq<seq<OpSegment>> {
    if batches == [] then [] else [Segments(sc, sort, batches[0])] + SplitAll(sc, sort, batches[1..])
  }

  lemma {:induction false} SegmentsSplit(size: nat, xs: seq<OpSegment>, ys: seq<OpSegment>, k: Key, b: Bag, b': Bag) returns (m: Bag)
    requires SegmentsWrite(size, xs + ys, k, b, b')
    ensures SegmentsWrite(size, xs, k, b, m) && SegmentsWrite(size, ys, k, m, b')
    decreases |xs|
  {
    if xs == [] {
      assert xs + ys == ys;
      m := b;
    } else {
      assert (xs + ys)[1..] == xs[1..] + ys;
      var n :| SegmentWrites(size, xs[0], k, b, n) && SegmentsWrite(size, xs[1..] + ys, k, n, b');
      m := SegmentsSplit(size, xs[1..], ys, k, n, b');
    }
  }

  lemma {:induction false} SegmentsAreBatches(sc: Schema, sort: seq<Row> -> seq<Row>, size: nat, batches: seq<RecordBatch>, k: Key, b: Bag, b': Bag)
    requires SegmentsWrite(size, Flat(SplitAll(sc, sort, batches)), k, b, b')
    ensures BatchesWrite(sc, sort, size, batches, k, b, b')
    decreases |batches|
  {
    if batches != [] {
      var first, rest := Segments(sc, sort, batches[0]), SplitAll(sc, sort, batches[1..]);
      assert SplitAll(sc, sort, batches)[1..] == rest;
      assert Flat(SplitAll(sc, sort, batches)) == first + Flat(rest);
      var m := SegmentsSplit(size, first, Flat(rest), k, b, b');
      SegmentsAreBatches(sc, sort, size, batches[1..], k, m, b');
    }
  }

  /** Meaning preservation end to end on the write side: for every interleaving of
      the chunk tasks of all tables under the permits, a table that is done holds
      what its source rows, applied one by one, would have left. */
  lemma {:induction false} WritesMeanRows(caps: Caps, us: seq<Table>, work: map<Table, seq<seq<OpSegment>>>, s0: Sinks, steps: seq<Step>, s: Sinks,
                                          sc: Schema, sort: seq<Row> -> seq<Row>, t: Table, batches: seq<RecordBatch>, k: Key, b: Bag, b': Bag)
    requires CapsOk(caps) && Starts(us, work, s0) && Reaches(caps, us, s0, steps, s)
    requires t in work && work[t] == SplitAll(sc, sort, batches) && t in s.jobs && Done(s.jobs[t])
    requires Sorts(sort) && Replayable(sc, Flat(batches), k)
    requires LogWrites(s.jobs[t].log, k, b, b')
    ensures b' == Fold(sc, Flat(batches), k, b)
  {
    StartInv(caps, us, work, s0);
    RunKeeps(caps, us, work, s0, steps, s);
    DoneComplete(caps, Flat(work[t]), s.jobs[t]);
    LogIsSegments(caps.size, s.jobs[t].log, k, b, b');
    SegmentsAreBatches(sc, sort, caps.size, batches, k, b, b');
    MeaningPreserved(sc, sort, caps.size, batches, k, b, b');
  }
}
