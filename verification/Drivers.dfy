/** The two programs that drive the pipeline through its checkpoints: the
    checkpointer that writes the oracle, and the benchmark run that is validated
    against it.  Both must number the same checkpoints. */
module Drivers {
  import opened Prelude
  import opened WorkPlan
  import opened Records
  import opened Reader
  import opened RunSegment
  import opened SegmentOutcome
  import opened Reference
  import opened Pipeline

  /** What a checkpoint index stands for: the work left over and the batches in
      the sink, table by table. */
  datatype Checkpoint = Checkpoint(idx: nat, left: map<Table, set<nat>>, sink: map<Table, seq<nat>>)

  function Snapshot(idx: nat, r: Ref): Checkpoint {
    Checkpoint(idx, r.todo, r.sink)
  }

  /** The checkpoints of a run whose first segment has budget `first` and whose
      later segments have budget `next`, numbered from `idx`.  (A pausing segment
      always shrinks the key set; the guard spells that out for termination.) */
  ghost function Log(read: Source, r: Ref, first: nat, next: nat, idx: nat): seq<Checkpoint>
    requires RefOk(r) && 0 < first && 0 < next
    decreases |Keys(r.todo)|
  {
    var r' := Advance(read, r, Some(first));
    [Snapshot(idx, r')] +
      if Pauses(r, Some(first)) && |Keys(r'.todo)| < |Keys(r.todo)| then Log(read, r', next, next, idx + 1) else []
  }

  function BaseSteps(numSteps: nat): nat {
    if numSteps == 0 then 0 else numSteps - 1
  }

  ghost function OracleLog(read: Source, listing: map<Table, seq<nat>>, bootstrap: bool, numSteps: nat, interval: nat): seq<Checkpoint>
    requires 0 < interval
  {
    var r := Loaded(listing, true, SeedSink(listing));
    var base := BaseSteps(numSteps);
    Log(read, r, if bootstrap then (if base == 0 then 1 else base) else interval, interval, 0)
  }

  ghost function BenchmarkLog(read: Source, listing: map<Table, seq<nat>>, bootstrap: bool, numSteps: nat, interval: nat): seq<Checkpoint>
    requires 0 < interval
  {
    var r := Loaded(listing, true, SeedSink(listing));
    var base := BaseSteps(numSteps);
    if bootstrap && 0 < base then
      if Pauses(r, Some(base)) then Log(read, r, base, interval, 0)
      else Log(read, Loaded(listing, false, Advance(read, r, Some(base)).sink), interval, interval, 0)
    else Log(read, r, interval, interval, 0)
  }

  lemma {:induction false} LogStep(read: Source, r: Ref, first: nat, next: nat, idx: nat)
    requires RefOk(r) && 0 < first && 0 < next
    ensures var r' := Advance(read, r, Some(first));
      && Log(read, r, first, next, idx) ==
           [Snapshot(idx, r')] + (if Pauses(r, Some(first)) then Log(read, r', next, next, idx + 1) else [])
      && (Pauses(r, Some(first)) ==> |Keys(r'.todo)| < |Keys(r.todo)|)
  {
    AdvanceKeys(read, r, first);
  }

  // ---------------------------------------------------------------------
  // What the entries of a log stand for.
  // ---------------------------------------------------------------------

  /** The budgets of the segments up to and including number `i`. */
  function Budgets(first: nat, next: nat, i: nat): seq<Option<nat>>
    decreases i
  {
    if i == 0 then [Some(first)] else [Some(first)] + Budgets(next, next, i - 1)
  }

  /** The reference state after segment number `i`. */
  function StateAfter(read: Source, r: Ref, first: nat, next: nat, i: nat): (r': Ref)
    requires RefOk(r)
    ensures RefOk(r')
  {
    AdvanceAll(read, r, Budgets(first, next, i))
  }

  /** Segment number `i` ends with a pause. */
  ghost predicate PausesAt(read: Source, r: Ref, first: nat, next: nat, i: nat)
    requires RefOk(r)
  {
    if i == 0 then Pauses(r, Some(first)) else Pauses(StateAfter(read, r, first, next, i - 1), Some(next))
  }

  /** The steps those budgets pay for. */
  function Spent(first: nat, next: nat, i: nat): nat
    decreases i
  {
    if i == 0 then first else first + Spent(next, next, i - 1)
  }

  /** A log is right: entry `i` has number `idx + i` and shows the work left and the sink
      after segment `i`, there is an entry for every pause and one for the completion,
      every pause leaves as many steps less as its budgets paid for, and the completion
      leaves none. */
  ghost predicate IsLog(read: Source, r: Ref, first: nat, next: nat, idx: nat, log: seq<Checkpoint>) {
    && RefOk(r) && log != []
    && (forall i :: 0 <= i < |log| ==> EntryOk(read, r, first, next, idx, i, log[i], i == |log| - 1))
  }

  ghost predicate EntryOk(read: Source, r: Ref, first: nat, next: nat, idx: nat, i: nat, c: Checkpoint, last: bool)
    requires RefOk(r)
  {
    && c.idx == idx + i
    && c.left == StateAfter(read, r, first, next, i).todo
    && c.sink == StateAfter(read, r, first, next, i).sink
    && (PausesAt(read, r, first, next, i) <==> !last)
    && if last then Keys(c.left) == {} else |Keys(c.left)| + Spent(first, next, i) == |Keys(r.todo)|
  }

  lemma {:induction false} StateShift(read: Source, r: Ref, first: nat, next: nat, i: nat)
    requires RefOk(r)
    ensures StateAfter(read, r, first, next, 0) == Advance(read, r, Some(first))
    ensures StateAfter(read, r, first, next, i + 1) == StateAfter(read, Advance(read, r, Some(first)), next, next, i)
  {
    hide Advance;
    assert [Some(first)][1..] == [];
    assert AdvanceAll(read, r, [Some(first)]) == AdvanceAll(read, Advance(read, r, Some(first)), []);
    assert ([Some(first)] + Budgets(next, next, i))[1..] == Budgets(next, next, i);
  }

  lemma {:induction false} PauseShift(read: Source, r: Ref, first: nat, next: nat, i: nat)
    requires RefOk(r)
    ensures PausesAt(read, r, first, next, i + 1) <==> PausesAt(read, Advance(read, r, Some(first)), next, next, i)
  {
    StateShift(read, r, first, next, if i == 0 then 0 else i - 1);
    hide Advance;
    hide StateAfter;
    hide Pauses;
  }

  /** An entry of the rest of a run, seen from the segment before. */
  lemma {:induction false} EntryShift(read: Source, r: Ref, first: nat, next: nat, idx: nat, i: nat, c: Checkpoint, last: bool)
    requires RefOk(r) && EntryOk(read, Advance(read, r, Some(first)), next, next, idx + 1, i, c, last)
    requires |Keys(Advance(read, r, Some(first)).todo)| + first == |Keys(r.todo)|
    ensures EntryOk(read, r, first, next, idx, i + 1, c, last)
  {
    StateShift(read, r, first, next, i);
    PauseShift(read, r, first, next, i);
    hide Advance;
    hide StateAfter;
    hide PausesAt;
    hide Keys;
  }

  lemma {:induction false} FirstEntry(read: Source, r: Ref, first: nat, next: nat, idx: nat, last: bool)
    requires RefOk(r) && (Pauses(r, Some(first)) <==> !last)
    requires var left := Advance(read, r, Some(first)).todo;
      if last then Keys(left) == {} else |Keys(left)| + first == |Keys(r.todo)|
    ensures EntryOk(read, r, first, next, idx, 0, Checkpoint(idx, Advance(read, r, Some(first)).todo, Advance(read, r, Some(first)).sink), last)
  {
    StateShift(read, r, first, next, 0);
    hide Advance;
    hide StateAfter;
    hide Pauses;
    hide Keys;
  }

  /** An entry in front of a log that is right from the next state on. */
  lemma {:induction false} IsLogCons(read: Source, r: Ref, first: nat, next: nat, idx: nat, c: Checkpoint, rest: seq<Checkpoint>)
    requires RefOk(r) && EntryOk(read, r, first, next, idx, 0, c, false)
    requires |Keys(Advance(read, r, Some(first)).todo)| + first == |Keys(r.todo)|
    requires IsLog(read, Advance(read, r, Some(first)), next, next, idx + 1, rest)
    ensures IsLog(read, r, first, next, idx, [c] + rest)
  {
    hide Advance;
    hide EntryOk;
    hide Keys;
    hide RefOk;
    var log := [c] + rest;
    forall i | 0 <= i < |log|
      ensures EntryOk(read, r, first, next, idx, i, log[i], i == |log| - 1)
    {
      if i > 0 {
        assert log[i] == rest[i - 1];
        EntryShift(read, r, first, next, idx, i - 1, rest[i - 1], i - 1 == |rest| - 1);
      }
    }
  }

  /** The log of a run is right. */
  lemma {:induction false} LogIsRight(read: Source, r: Ref, first: nat, next: nat, idx: nat)
    requires RefOk(r) && 0 < first && 0 < next
    ensures IsLog(read, r, first, next, idx, Log(read, r, first, next, idx))
    decreases |Keys(r.todo)|
  {
    LogStep(read, r, first, next, idx);
    AdvanceKeys(read, r, first);
    var r' := Advance(read, r, Some(first));
    hide Log;
    hide Advance;
    hide IsLog;
    hide EntryOk;
    hide Keys;
    hide Pauses;
    var c := Snapshot(idx, r');
    FirstEntry(read, r, first, next, idx, !Pauses(r, Some(first)));
    if Pauses(r, Some(first)) {
      LogIsRight(read, r', next, next, idx + 1);
      IsLogCons(read, r, first, next, idx, c, Log(read, r', next, next, idx + 1));
    } else {
      assert [c] + [] == [c];
      IsLogOne(read, r, first, next, idx, c);
    }
  }

  lemma {:induction false} IsLogOne(read: Source, r: Ref, first: nat, next: nat, idx: nat, c: Checkpoint)
    requires RefOk(r) && EntryOk(read, r, first, next, idx, 0, c, true)
    ensures IsLog(read, r, first, next, idx, [c])
  {
    hide EntryOk;
  }

  /** What is still to be logged: nothing once the run has completed. */
  ghost function Coming(read: Source, r: Ref, running: bool, limit: nat, next: nat, idx: nat): seq<Checkpoint>
    requires 0 < limit && 0 < next && RefOk(r)
  {
    if running then Log(read, r, limit, next, idx) else []
  }

  /** A segment with a positive budget has been spawned from reference state `r`. */
  ghost predicate Ready(p: ETLPipeline, r: Ref, limit: nat)
    reads p, p.work
  {
    p.Valid() && FullBatches(p.read) && p.View() == r && p.state == Active && p.spawned == Some(limit) && p.budget == Some(limit) && 0 < limit
  }

  lemma {:induction false} ReadyRef(p: ETLPipeline, r: Ref)
    requires p.Valid() && p.View() == r
    ensures RefOk(r)
  {
  }

  /** Waits for the segment to stop and takes the checkpoint. */
  method Observe(p: ETLPipeline, idx: nat, ghost r: Ref, limit: nat, ghost next: nat) returns (c: Checkpoint, ghost r': Ref)
    requires Ready(p, r, limit) && 0 < next
    modifies p, p.work
    ensures p.Valid() && p.View() == r' && RefOk(r) && RefOk(r')
    ensures p.checkpointIdx == old(p.checkpointIdx) && p.budget == Some(limit)
    ensures p.state == AtCheckpoint || p.state == Stopped(Done)
    ensures Log(p.read, r, limit, next, idx) == [c] + Coming(p.read, r', p.state == AtCheckpoint, next, next, idx + 1)
    ensures p.state == AtCheckpoint ==> |Keys(r'.todo)| < |Keys(r.todo)|
  {
    ReadyRef(p, r);
    LogStep(p.read, r, limit, next, idx);
    p.Wait();
    r' := p.View();
    c := Checkpoint(idx, Work(p.listing.Keys, p.work.steps), p.sink);
  }

  /** Resumes a paused pipeline, after switching the budget if asked to. */
  method Resume(p: ETLPipeline, ghost r: Ref, rebudget: bool, interval: nat)
    requires p.Valid() && FullBatches(p.read) && p.View() == r && p.state == AtCheckpoint && 0 < interval
    requires rebudget || p.budget == Some(interval)
    modifies p
    ensures Ready(p, r, interval) && p.checkpointIdx == old(p.checkpointIdx) + 1
  {
    if rebudget {
      p.SetBatchBudget(interval);
    }
    var resumed := p.Continue();
  }

  /** `due` is what a run from `r` is going to log; `size` bounds its length. */
  ghost predicate Due(read: Source, r: Ref, limit: nat, next: nat, idx: nat, due: seq<Checkpoint>, size: nat) {
    RefOk(r) && 0 < limit && 0 < next && due == Log(read, r, limit, next, idx) && size == |Keys(r.todo)|
  }

  /** One turn of a driver's loop: wait, take the checkpoint, resume after a pause. */
  method Turn(p: ETLPipeline, idx: nat, limit: nat, rebudget: bool, interval: nat, ghost r: Ref, ghost due: seq<Checkpoint>, ghost size: nat)
    returns (c: Checkpoint, ghost r': Ref, ghost due': seq<Checkpoint>, ghost size': nat)
    requires Ready(p, r, limit) && Due(p.read, r, limit, interval, idx, due, size) && (rebudget || limit == interval)
    modifies p, p.work
    ensures p.state == Stopped(Done) || (p.state == Active && Ready(p, r', interval))
    ensures p.state == Active ==> Due(p.read, r', interval, interval, idx + 1, due', size') && size' < size
    ensures p.state == Active ==> p.checkpointIdx == old(p.checkpointIdx) + 1
    ensures due == [c] + due'
    ensures p.state == Stopped(Done) ==> due' == []
  {
    c, r' := Observe(p, idx, r, limit, interval);
    due', size' := Coming(p.read, r', p.state == AtCheckpoint, interval, interval, idx + 1), |Keys(r'.todo)|;
    if p.state == AtCheckpoint {
      Resume(p, r', rebudget, interval);
    }
  }

  /** The loop of either driver.  The checkpointer numbers pauses with a counter
      of its own and, in bootstrap mode, switches the budget to the interval at
      every pause; the benchmark run (`byPipeline`) asks the pipeline for its
      checkpoint index and keeps the budget. */
  method DriverLoop(p: ETLPipeline, byPipeline: bool, start: nat, first: nat, rebudget: bool, interval: nat,
                    ghost r0: Ref, ghost goal: seq<Checkpoint>, ghost size0: nat)
    returns (log: seq<Checkpoint>)
    requires Ready(p, r0, first) && Due(p.read, r0, first, interval, start, goal, size0) && (rebudget || first == interval)
    requires byPipeline ==> start == p.checkpointIdx
    modifies p, p.work
    ensures log == goal && IsLog(p.read, r0, first, interval, start, log)
  {
    hide Log;
    hide IsLog;
    log := [];
    var idx, limit := start, first;
    ghost var r, due, size := r0, goal, size0;
    while p.state == Active
      invariant rebudget || limit == interval
      invariant p.state == Stopped(Done) ||
        (p.state == Active && Ready(p, r, limit) && Due(p.read, r, limit, interval, idx, due, size))
      invariant byPipeline && p.state == Active ==> idx == p.checkpointIdx
      invariant log + due == goal
      invariant p.state == Stopped(Done) ==> due == []
      decreases p.state == Active, size
    {
      var c, r', due', size' := Turn(p, if byPipeline then p.checkpointIdx else idx, limit, rebudget, interval, r, due, size);
      assert log + ([c] + due') == (log + [c]) + due';
      log, idx, limit, r, due, size := log + [c], idx + 1, interval, r', due', size';
    }
    LogIsRight(p.read, r0, first, interval, start);
  }

  /** The checkpointer. */
  method CheckpointOracle(p: ETLPipeline, bootstrap: bool, numSteps: nat, interval: nat)
    returns (ok: bool, log: seq<Checkpoint>)
    requires p.Valid() && FullBatches(p.read) && p.state == NotStarted && p.sink == (map t | t in p.listing :: [])
    requires 0 < interval
    modifies p, p.work
    ensures ok <==> FirstsPresent(p.read, p.listing)
    ensures ok ==> log == OracleLog(p.read, p.listing, bootstrap, numSteps, interval)
    ensures ok ==>
      var first := if !bootstrap then interval else if numSteps <= 2 then 1 else numSteps - 1;
      IsLog(p.read, Loaded(p.listing, true, SeedSink(p.listing)), first, interval, 0, log)
  {
    hide IsLog;
    log := [];
    ok := p.Initialize();
    if ok {
      var base := BaseSteps(numSteps);
      var first := if bootstrap then (if base == 0 then 1 else base) else interval;
      p.Run(first);
      ghost var r := Loaded(p.listing, true, SeedSink(p.listing));
      ReadyRef(p, r);
      log := DriverLoop(p, false, 0, first, bootstrap, interval, r, Log(p.read, r, first, interval, 0), |Keys(r.todo)|);
    }
  }

  /** The benchmark run: seed the base first in bootstrap mode, then resume if the
      pipeline is paused and otherwise (re)run it. */
  method BenchmarkRun(p: ETLPipeline, bootstrap: bool, numSteps: nat, interval: nat)
    returns (ok: bool, log: seq<Checkpoint>)
    requires p.Valid() && FullBatches(p.read) && p.state == NotStarted && p.sink == (map t | t in p.listing :: []) && p.checkpointIdx == 0
    requires 0 < interval
    modifies p, p.work
    ensures ok <==> FirstsPresent(p.read, p.listing)
    ensures ok ==> log == BenchmarkLog(p.read, p.listing, bootstrap, numSteps, interval)
    ensures ok ==> BenchmarkShows(p.read, p.listing, bootstrap, numSteps, interval, log)
  {
    hide IsLog;
    log := [];
    ok := p.Initialize();
    if ok {
      var base := BaseSteps(numSteps);
      if bootstrap && 0 < base {
        log := SeededRun(p, base, interval, SeedSink(p.listing));
      } else {
        p.Run(interval);
        ghost var r := Loaded(p.listing, true, SeedSink(p.listing));
        ReadyRef(p, r);
        log := DriverLoop(p, true, 0, interval, false, interval, r, Log(p.read, r, interval, interval, 0), |Keys(r.todo)|);
      }
    }
  }

  /** What the benchmark's log is a right log of: the whole run, except that a base the
      plan cannot fill makes it start over. */
  ghost predicate BenchmarkShows(read: Source, listing: map<Table, seq<nat>>, bootstrap: bool, numSteps: nat, interval: nat, log: seq<Checkpoint>) {
    var r := Loaded(listing, true, SeedSink(listing));
    RefOk(r) &&
    if !bootstrap || numSteps < 2 then IsLog(read, r, interval, interval, 0, log)
    else if Pauses(r, Some(numSteps - 1)) then IsLog(read, r, numSteps - 1, interval, 0, log)
    else IsLog(read, Loaded(listing, false, Advance(read, r, Some(numSteps - 1)).sink), interval, interval, 0, log)
  }

  /** Bootstrap: the base is seeded in a segment of its own and is checkpoint 0.
      The run resumes only if that segment paused. */
  method SeededRun(p: ETLPipeline, base: nat, interval: nat, ghost sink: map<Table, seq<nat>>) returns (log: seq<Checkpoint>)
    requires p.Valid() && FullBatches(p.read) && p.state == Initialized && p.checkpointIdx == 0 && 0 < base && 0 < interval && sink == p.sink
    modifies p, p.work
    ensures var r := Loaded(p.listing, true, sink);
      RefOk(r) &&
      log == if Pauses(r, Some(base)) then Log(p.read, r, base, interval, 0)
             else Log(p.read, Loaded(p.listing, false, Advance(p.read, r, Some(base)).sink), interval, interval, 0)
    ensures var r := Loaded(p.listing, true, sink);
      if Pauses(r, Some(base)) then IsLog(p.read, r, base, interval, 0, log)
      else IsLog(p.read, Loaded(p.listing, false, Advance(p.read, r, Some(base)).sink), interval, interval, 0, log)
  {
    hide IsLog;
    ghost var r := Loaded(p.listing, true, sink);
    p.Run(base);
    ReadyRef(p, r);
    p.Wait();
    LogStep(p.read, r, base, interval, 0);
    LogIsRight(p.read, r, base, interval, 0);
    if p.state == AtCheckpoint {
      log := ResumeSeeded(p, interval, Advance(p.read, r, Some(base)));
    } else {
      log := Rerun(p, interval, Advance(p.read, r, Some(base)).sink);
    }
  }

  method ResumeSeeded(p: ETLPipeline, interval: nat, ghost r: Ref) returns (log: seq<Checkpoint>)
    requires p.Valid() && FullBatches(p.read) && p.View() == r && p.state == AtCheckpoint && p.checkpointIdx == 0 && 0 < interval
    modifies p, p.work
    ensures RefOk(r) && log == [Snapshot(0, r)] + Log(p.read, r, interval, interval, 1)
  {
    var c := Checkpoint(0, Work(p.listing.Keys, p.work.steps), p.sink);
    Resume(p, r, true, interval);
    ReadyRef(p, r);
    log := DriverLoop(p, true, 1, interval, false, interval, r, Log(p.read, r, interval, interval, 1), |Keys(r.todo)|);
    log := [c] + log;
  }

  method Rerun(p: ETLPipeline, interval: nat, ghost sink: map<Table, seq<nat>>) returns (log: seq<Checkpoint>)
    requires p.Valid() && FullBatches(p.read) && p.state == Stopped(Done) && p.checkpointIdx == 0 && 0 < interval && p.sink == sink
    modifies p, p.work
    ensures RefOk(Loaded(p.listing, false, sink))
    ensures log == Log(p.read, Loaded(p.listing, false, sink), interval, interval, 0)
    ensures IsLog(p.read, Loaded(p.listing, false, sink), interval, interval, 0, log)
  {
    hide IsLog;
    p.Run(interval);
    ghost var r := Loaded(p.listing, false, sink);
    ReadyRef(p, r);
    log := DriverLoop(p, true, 0, interval, false, interval, r, Log(p.read, r, interval, interval, 0), |Keys(r.todo)|);
  }

  // ---------------------------------------------------------------------
  // When the two agree.
  // ---------------------------------------------------------------------

  /** What a caller can check beforehand: no bootstrap; or a base of at least two
      steps that the plan can fill; or one of the degenerate cases. */
  ghost predicate Aligned(listing: map<Table, seq<nat>>, bootstrap: bool, numSteps: nat, interval: nat) {
    var n := |Keys(Planned(listing, true))|;
    || !bootstrap
    || (2 <= numSteps && numSteps - 1 <= n)
    || (numSteps < 2 && (interval == 1 || n == 0))
    || (2 <= numSteps && n < numSteps - 1 && forall t :: t in listing ==> listing[t] == [])
  }

  lemma {:induction false} LogHead(read: Source, r: Ref, first: nat, next: nat, idx: nat)
    requires RefOk(r) && 0 < first && 0 < next
    ensures var log := Log(read, r, first, next, idx);
      && 0 < |log| && log[0] == Snapshot(idx, Advance(read, r, Some(first)))
      && (|log| == 1 <==> !Pauses(r, Some(first)))
  {
    AdvanceKeys(read, r, first);
    if Pauses(r, Some(first)) {
      var r' := Advance(read, r, Some(first));
      AdvanceKeys(read, r', next);
      assert 0 < |Log(read, r', next, next, idx + 1)|;
    }
  }

  lemma {:induction false} AgreeWhenAligned(read: Source, listing: map<Table, seq<nat>>, bootstrap: bool, numSteps: nat, interval: nat)
    requires 0 < interval && Aligned(listing, bootstrap, numSteps, interval)
    ensures OracleLog(read, listing, bootstrap, numSteps, interval) == BenchmarkLog(read, listing, bootstrap, numSteps, interval)
  {
    var r := Loaded(listing, true, SeedSink(listing));
    var base, n := BaseSteps(numSteps), |Keys(r.todo)|;
    if bootstrap && 0 < base {
      AdvanceKeys(read, r, base);
      if n < base {
        EmptyListing(read, listing, base, interval);
      }
    } else if bootstrap && interval != 1 {
      NothingToDo(read, r, 1, interval);
    }
  }

  lemma {:induction false} AdvanceNothing(read: Source, r: Ref, limit: nat)
    requires RefOk(r) && 0 < limit && Keys(r.todo) == {}
    ensures Advance(read, r, Some(limit)) == r && !Pauses(r, Some(limit))
  {
    AdvanceKeys(read, r, limit);
    var max := Bound({}, Some(limit));
    forall t | t in r.todo
      ensures r.todo[t] == {} && Upto(r.todo[t], max) == {}
    {
      assert forall id :: id in r.todo[t] ==> id in Keys(r.todo);
    }
    assert Sorted({}) == [];
    forall t | t in r.todo
      ensures TodoAfter(r.todo, max)[t] == r.todo[t] && SinkAfter(read, r.todo, r.fin, r.sink, max)[t] == r.sink[t]
      ensures t !in Exhausted(read, r.todo, max)
    {
      assert Available(read, t, []) == [];
    }
    assert Exhausted(read, r.todo, max) == {};
  }

  lemma {:induction false} NothingToDo(read: Source, r: Ref, a: nat, b: nat)
    requires RefOk(r) && 0 < a && 0 < b && Keys(r.todo) == {}
    ensures Log(read, r, a, b, 0) == Log(read, r, b, b, 0) == [Snapshot(0, r)]
  {
    AdvanceNothing(read, r, a);
    AdvanceNothing(read, r, b);
  }

  lemma {:induction false} EmptyListing(read: Source, listing: map<Table, seq<nat>>, base: nat, interval: nat)
    requires 0 < base && 0 < interval && forall t :: t in listing ==> listing[t] == []
    ensures var r := Loaded(listing, true, SeedSink(listing));
      Log(read, r, base, interval, 0) ==
      Log(read, Loaded(listing, false, Advance(read, r, Some(base)).sink), interval, interval, 0)
  {
    var r := Loaded(listing, true, SeedSink(listing));
    assert Keys(r.todo) == {};
    AdvanceNothing(read, r, base);
    assert Planned(listing, false) == Planned(listing, true);
    NothingToDo(read, r, base, interval);
  }

  /** A base of fewer than two steps, a cadence above one and something to do: the
      checkpointer pauses after one step, the benchmark run does not. */
  lemma {:induction false} DifferOnShortBase(read: Source, listing: map<Table, seq<nat>>, numSteps: nat, interval: nat)
    requires 1 < interval && numSteps < 2 && 0 < |Keys(Planned(listing, true))|
    ensures OracleLog(read, listing, true, numSteps, interval) != BenchmarkLog(read, listing, true, numSteps, interval)
  {
    var r := Loaded(listing, true, SeedSink(listing));
    LogHead(read, r, 1, interval, 0);
    LogHead(read, r, interval, interval, 0);
    AdvanceKeys(read, r, 1);
    AdvanceKeys(read, r, interval);
  }

  /** The plan is exhausted before the base is complete: the seeding segment
      completes, the benchmark run then rebuilds the plan from scratch and writes
      every batch, first ones included, a second time. */
  lemma {:induction false} DifferOnReplay(read: Source, listing: map<Table, seq<nat>>, numSteps: nat, interval: nat, t: Table)
    requires 0 < interval && 2 <= numSteps && |Keys(Planned(listing, true))| < numSteps - 1
    requires FirstsPresent(read, listing) && t in listing && listing[t] != []
    requires forall i :: 0 <= i < |listing[t]| ==> listing[t][0] <= listing[t][i]
    ensures OracleLog(read, listing, true, numSteps, interval) != BenchmarkLog(read, listing, true, numSteps, interval)
  {
    var r, base := Loaded(listing, true, SeedSink(listing)), BaseSteps(numSteps);
    AdvanceKeys(read, r, base);
    LogHead(read, r, base, interval, 0);
    var r1 := Advance(read, r, Some(base));
    assert r1.sink.Keys == listing.Keys;
    hide Advance;
    hide Log;
    SecondRunShows(read, listing, r1.sink, interval, t);
  }

  /** Running everything again on a filled sink pauses, or changes the sink. */
  lemma {:induction false} SecondRunShows(read: Source, listing: map<Table, seq<nat>>, sink: map<Table, seq<nat>>, interval: nat, t: Table)
    requires 0 < interval && sink.Keys == listing.Keys
    requires FirstsPresent(read, listing) && t in listing && listing[t] != []
    requires forall i :: 0 <= i < |listing[t]| ==> listing[t][0] <= listing[t][i]
    ensures var log := Log(read, Loaded(listing, false, sink), interval, interval, 0);
      |log| > 1 || (|log| == 1 && log[0].sink != sink)
  {
    var r := Loaded(listing, false, sink);
    LogHead(read, r, interval, interval, 0);
    hide Log;
    var id := listing[t][0];
    assert r.todo[t] == Elems(listing[t]) && id in r.todo[t];
    if !Pauses(r, Some(interval)) {
      ReplayGrows(read, r, interval, t, id);
    }
  }

  lemma {:induction false} ReplayGrows(read: Source, r: Ref, limit: nat, t: Table, id: nat)
    requires RefOk(r) && 0 < limit && !Pauses(r, Some(limit)) && t in r.todo && t !in r.fin
    requires id in r.todo[t] && (forall x :: x in r.todo[t] ==> id <= x) && read(t, id).Some?
    ensures Advance(read, r, Some(limit)).sink[t] != r.sink[t]
  {
    var max := Bound(Keys(r.todo), Some(limit));
    assert Upto(r.todo[t], max) == r.todo[t];
    SortedCons(r.todo[t], id);
    assert |Available(read, t, Sorted(r.todo[t]))| > 0;
  }

  /** The exact condition: for every listing that `initialize` accepts and whose tables
      list their least ID first, as the storage does, the oracle and the benchmark
      agree on every checkpoint if and only if they are aligned. */
  lemma {:induction false} DriversAgreeIff(read: Source, listing: map<Table, seq<nat>>, bootstrap: bool, numSteps: nat, interval: nat)
    requires 0 < interval && FirstsPresent(read, listing)
    requires forall t, i :: t in listing && 0 <= i < |listing[t]| ==> listing[t][0] <= listing[t][i]
    ensures OracleLog(read, listing, bootstrap, numSteps, interval) == BenchmarkLog(read, listing, bootstrap, numSteps, interval)
      <==> Aligned(listing, bootstrap, numSteps, interval)
  {
    if Aligned(listing, bootstrap, numSteps, interval) {
      AgreeWhenAligned(read, listing, bootstrap, numSteps, interval);
    } else if numSteps < 2 {
      DifferOnShortBase(read, listing, numSteps, interval);
    } else {
      var t :| t in listing && listing[t] != [];
      DifferOnReplay(read, listing, numSteps, interval, t);
    }
  }
}
