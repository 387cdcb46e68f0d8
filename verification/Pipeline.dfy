/** The pipeline object: its life cycle, its step budget, and the run segments it
    spawns.  Every method is specified on the reference view. */
module Pipeline {
  import opened Prelude
  import opened WorkPlan
  import opened Records
  import opened Reader
  import opened RunSegment
  import opened SegmentOutcome
  import opened SegmentProgress
  import opened Reference

  datatype StopReason = Done | Cancelled | Failed

  datatype PipelineState = NotStarted | Initialized | Active | AtCheckpoint | Stopped(reason: StopReason)

  ghost predicate ListingOk(listing: map<Table, seq<nat>>) {
    forall t, i :: t in listing && 0 <= i < |listing[t]| ==> listing[t][i] <= U64_MAX
  }

  /** The work `build_work_plan` puts down for every table. */
  function Planned(listing: map<Table, seq<nat>>, skipFirst: bool): map<Table, set<nat>> {
    map t | t in listing :: Listed(listing[t], skipFirst)
  }

  /** The first batch of every table is in storage. */
  ghost predicate FirstsPresent(read: Source, listing: map<Table, seq<nat>>) {
    forall t :: t in listing && listing[t] != [] ==> read(t, listing[t][0]).Some?
  }

  function First(ids: seq<nat>): seq<nat> {
    if ids == [] then [] else [ids[0]]
  }

  /** The sink after the first batch of every table has been added. */
  function Seeded(listing: map<Table, seq<nat>>, sink: map<Table, seq<nat>>): map<Table, seq<nat>>
    requires sink.Keys == listing.Keys
  {
    map t | t in listing :: sink[t] + First(listing[t])
  }

  function SeedSink(listing: map<Table, seq<nat>>): map<Table, seq<nat>> {
    Seeded(listing, map t | t in listing :: [])
  }

  /** The state after `run`: a new plan, no table finished, and the sink as it was. */
  function Loaded(listing: map<Table, seq<nat>>, skipFirst: bool, sink: map<Table, seq<nat>>): Ref {
    Ref(Planned(listing, skipFirst), {}, sink)
  }

  /** The storage lists the least ID first. */
  ghost predicate LeastFirst(ids: seq<nat>) {
    forall i :: 0 <= i < |ids| ==> ids[0] <= ids[i]
  }

  /** What a table has received once everything is done: its listed batches in
      ascending order, cut before the first one missing from storage. */
  function Everything(read: Source, ids: seq<nat>, t: Table): seq<nat> {
    Available(read, t, Sorted(Elems(ids)))
  }

  /** Exactly once over whole runs from initialization on: whatever the budgets of the
      segments, once nothing is left to do every table has received each listed
      batch once and in ascending order, the first one, which initialization wrote,
      included. */
  lemma {:induction false} InitializedRunDelivers(read: Source, listing: map<Table, seq<nat>>, limits: seq<Option<nat>>, t: Table)
    requires FirstsPresent(read, listing) && t in listing && LeastFirst(listing[t])
    ensures var r := Loaded(listing, true, SeedSink(listing));
      && RefOk(r) && t in r.todo
      && Prospect(read, AdvanceAll(read, r, limits), t) == Everything(read, listing[t], t)
      && (Keys(AdvanceAll(read, r, limits).todo) == {} ==>
            AdvanceAll(read, r, limits).sink[t] == Everything(read, listing[t], t))
  {
    var r := Loaded(listing, true, SeedSink(listing));
    RunDeliversExactly(read, r, limits, t);
    SeedProspect(read, listing, t);
  }

  /** Everything is the first batch and then what the plan holds. */
  lemma {:induction false} EverythingSplits(read: Source, ids: seq<nat>, t: Table)
    requires LeastFirst(ids) && (ids != [] ==> read(t, ids[0]).Some?)
    ensures Everything(read, ids, t) == First(ids) + Available(read, t, Sorted(Listed(ids, true)))
  {
    if ids == [] {
      assert Elems(ids) == {};
    } else {
      var all, rest := Elems(ids), Elems(ids) - {ids[0]};
      SortedCons(all, ids[0]);
      assert ([ids[0]] + Sorted(rest))[1..] == Sorted(rest);
    }
  }

  /** What initialization wrote plus what the plan holds is everything. */
  lemma {:induction false} SeedProspect(read: Source, listing: map<Table, seq<nat>>, t: Table)
    requires FirstsPresent(read, listing) && t in listing && LeastFirst(listing[t])
    ensures var r := Loaded(listing, true, SeedSink(listing));
      RefOk(r) && Prospect(read, r, t) == Everything(read, listing[t], t)
  {
    var r := Loaded(listing, true, SeedSink(listing));
    assert r.sink[t] == [] + First(listing[t]) == First(listing[t]);
    EverythingSplits(read, listing[t], t);
  }

  method WriteFirsts(read: Source, listing: map<Table, seq<nat>>, sink: map<Table, seq<nat>>)
    returns (ok: bool, seeded: map<Table, seq<nat>>)
    requires sink.Keys == listing.Keys
    ensures ok <==> FirstsPresent(read, listing)
    ensures seeded.Keys == listing.Keys
    ensures ok ==> seeded == Seeded(listing, sink)
  {
    seeded := sink;
    var names := listing.Keys;
    while names != {}
      invariant names <= listing.Keys && seeded.Keys == listing.Keys
      invariant forall t :: t in listing ==> seeded[t] == if t in names then sink[t] else sink[t] + First(listing[t])
      invariant forall t :: t in listing && t !in names && listing[t] != [] ==> read(t, listing[t][0]).Some?
      decreases names
    {
      var name :| name in names;
      var ids := listing[name];
      if ids != [] {
        if read(name, ids[0]).None? {
          return false, seeded;
        }
        seeded := seeded[name := seeded[name] + [ids[0]]];
      }
      names := names - {name};
    }
    ok := true;
  }

  // ---------------------------------------------------------------------
  // The concrete segment refines the reference segment.
  // ---------------------------------------------------------------------

  function ViewOf(names: set<Table>, plan: Plan, fin: set<Table>, sink: map<Table, seq<nat>>): Ref {
    Ref(Work(names, plan), fin, sink)
  }

  function Work(names: set<Table>, plan: Plan): map<Table, set<nat>> {
    map t | t in names :: Ids(plan, t)
  }

  ghost predicate Confined(names: set<Table>, plan: Plan) {
    Wf(plan) && forall t :: t !in names ==> Ids(plan, t) == {}
  }

  lemma {:induction false} KeysOfPlan(names: set<Table>, plan: Plan, todo: map<Table, set<nat>>)
    requires Confined(names, plan) && todo == Work(names, plan)
    ensures Keys(todo) == plan.Keys
  {
    forall id | id in plan.Keys
      ensures id in Keys(todo)
    {
      var t := plan[id][0];
      assert id in Ids(plan, t);
      assert t in names;
      assert id in todo[t];
    }
    forall id | id in Keys(todo)
      ensures id in plan.Keys
    {
      var t :| t in todo && id in todo[t];
    }
  }

  function NewSink(names: set<Table>, sink: map<Table, seq<nat>>, out: map<Table, seq<seq<nat>>>): map<Table, seq<nat>>
    requires names == sink.Keys
  {
    map t | t in names :: sink[t] + Flat(Out(out, t))
  }

  lemma {:induction false} RestIds(P: Plan, max: Option<nat>, t: Table)
    ensures Ids(Rest(P, max), t) == Ids(P, t) - Upto(Ids(P, t), max)
  {
  }

  /** No table that is still going ends the interval with a void read. */
  ghost predicate NoVoid(e: Env, P: Plan, F: set<Table>)
    requires 0 < e.target
  {
    forall t :: t !in F ==> !EndsVoid(e, P, t)
  }

  /** Scope, absence and delivery of a table in reference terms. */
  lemma {:induction false} TableFacts(names: set<Table>, e: Env, P: Plan, F: set<Table>, t: Table)
    requires 0 < e.target && Confined(names, P)
    ensures ScopeIds(e, P, t) == Upto(Ids(P, t), e.max)
    ensures !Present(e, t, Scope(e, P, t)) <==> Missing(e.read, t, Sorted(Upto(Ids(P, t), e.max)))
    ensures t !in names ==> Present(e, t, Scope(e, P, t)) && !EndsVoid(e, P, t)
    ensures (Flat(Delivered(e, P, F, t)) == if t in F then [] else Available(e.read, t, Sorted(Upto(Ids(P, t), e.max))))
      <==> t in F || !EndsVoid(e, P, t)
  {
    AvailableAll(e, t, Scope(e, P, t));
    DeliveredOnceInOrder(e, P, F, t);
    assert ScopeIds(e, P, t) == Upto(Ids(P, t), e.max);
    if t !in names {
      assert Ids(P, t) == {} && ScopeIds(e, P, t) == {};
    }
  }

  lemma {:induction false} RefinesTodo(names: set<Table>, e: Env, P: Plan, F: set<Table>, s: Segment)
    requires 0 < e.target && Confined(names, P) && Outcome(e, P, F, s)
    ensures Confined(names, s.plan)
    ensures Work(names, s.plan) == TodoAfter(Work(names, P), e.max)
  {
    forall t
      ensures Ids(s.plan, t) == Ids(P, t) - Upto(Ids(P, t), e.max)
    {
      RestIds(P, e.max, t);
    }
  }

  lemma {:induction false} RefinesFin(names: set<Table>, e: Env, P: Plan, F: set<Table>, s: Segment)
    requires 0 < e.target && Confined(names, P) && Outcome(e, P, F, s) && NoVoid(e, P, F)
    ensures s.finished == F + Exhausted(e.read, Work(names, P), e.max)
  {
    forall t
      ensures t in s.finished <==> t in F || (t in names && Missing(e.read, t, Sorted(Upto(Ids(P, t), e.max))))
    {
      TableFacts(names, e, P, F, t);
    }
  }

  lemma {:induction false} SinkAt(names: set<Table>, e: Env, P: Plan, F: set<Table>, sink: map<Table, seq<nat>>, s: Segment, t: Table)
    requires 0 < e.target && Confined(names, P) && names == sink.Keys && Outcome(e, P, F, s) && t in names
    ensures NewSink(names, sink, s.out)[t] == SinkAfter(e.read, Work(names, P), F, sink, e.max)[t] <==> t in F || !EndsVoid(e, P, t)
  {
    TableFacts(names, e, P, F, t);
    assert Out(s.out, t) == Delivered(e, P, F, t);
    hide Outcome;
    hide EndsVoid;
    hide Delivered;
    hide Available;
    SameSuffix(sink[t], Flat(Out(s.out, t)), if t in F then [] else Available(e.read, t, Sorted(Upto(Ids(P, t), e.max))));
  }

  /** The sink receives what the reference says, exactly without a void read. */
  lemma {:induction false} RefinesSink(names: set<Table>, e: Env, P: Plan, F: set<Table>, sink: map<Table, seq<nat>>, s: Segment)
    requires 0 < e.target && Confined(names, P) && names == sink.Keys && Outcome(e, P, F, s)
    ensures NewSink(names, sink, s.out) == SinkAfter(e.read, Work(names, P), F, sink, e.max) <==> NoVoid(e, P, F)
  {
    hide Outcome;
    hide EndsVoid;
    hide Confined;
    var now, due := NewSink(names, sink, s.out), SinkAfter(e.read, Work(names, P), F, sink, e.max);
    assert now.Keys == names && due.Keys == names;
    forall t
      ensures t in names ==> (now[t] == due[t] <==> t in F || !EndsVoid(e, P, t))
      ensures t !in names ==> !EndsVoid(e, P, t)
    {
      if t in names {
        SinkAt(names, e, P, F, sink, s, t);
      } else {
        TableFacts(names, e, P, F, t);
      }
    }
    hide NewSink;
    hide SinkAfter;
    SameMaps(now, due);
  }

  lemma {:induction false} SameMaps(a: map<Table, seq<nat>>, b: map<Table, seq<nat>>)
    requires a.Keys == b.Keys
    ensures a == b <==> forall t :: t in a ==> a[t] == b[t]
  {
  }

  lemma {:induction false} SameSuffix(a: seq<nat>, b: seq<nat>, c: seq<nat>)
    ensures a + b == a + c <==> b == c
  {
    assert (a + b)[|a|..] == b && (a + c)[|a|..] == c;
  }

  /** The concrete outcome of a segment is the reference segment, if and only if no
      read was void; the work left and the pause are those of the reference anyway. */
  lemma {:induction false} Refines(names: set<Table>, e: Env, limit: Option<nat>, P: Plan, F: set<Table>, sink: map<Table, seq<nat>>, s: Segment)
    requires 0 < e.target && Confined(names, P) && names == sink.Keys
    requires e.max == Boundary(P, limit) && Outcome(e, P, F, s)
    ensures Confined(names, s.plan)
    ensures var r := ViewOf(names, P, F, sink);
      && RefOk(r)
      && Work(names, s.plan) == Advance(e.read, r, limit).todo
      && (ViewOf(names, s.plan, s.finished, NewSink(names, sink, s.out)) == Advance(e.read, r, limit) <==> NoVoid(e, P, F))
      && (s.status == Paused <==> Pauses(r, limit))
  {
    hide EndsVoid;
    var r := ViewOf(names, P, F, sink);
    KeysOfPlan(names, P, r.todo);
    RefinesTodo(names, e, P, F, s);
    RefinesSink(names, e, P, F, sink, s);
    assert s.status == (if e.max.Some? then Paused else Completed);
    hide Outcome;
    hide Work;
    hide NewSink;
    hide SinkAfter;
    hide TodoAfter;
    if NoVoid(e, P, F) {
      RefinesFin(names, e, P, F, s);
    }
    hide NoVoid;
  }

  /** Stored batches that are not empty never make a void read. */
  lemma {:induction false} FullBatchesNoVoid(e: Env, P: Plan, F: set<Table>)
    requires 0 < e.target && FullBatches(e.read)
    ensures NoVoid(e, P, F)
  {
    forall t | t !in F
      ensures !EndsVoid(e, P, t)
    {
      NeverVoid(e, P, t);
    }
  }

  class ETLPipeline {
    const read: Source
    const target: nat
    const listing: map<Table, seq<nat>>
    const work: WorkState
    var state: PipelineState
    var budget: Option<nat>
    var checkpointIdx: nat
    var spawned: Option<nat>           // step limit of the latest background task
    var sink: map<Table, seq<nat>>     // batches written, per table, in order

    ghost predicate Valid()
      reads this, work
    {
      && 0 < target
      && ListingOk(listing)
      && Confined(listing.Keys, work.steps)
      && sink.Keys == listing.Keys
    }

    ghost function View(): Ref
      reads this, work
    {
      ViewOf(listing.Keys, work.steps, work.finished, sink)
    }

    constructor (read: Source, target: nat, listing: map<Table, seq<nat>>)
      requires 0 < target && ListingOk(listing)
      ensures Valid() && fresh(work)
      ensures this.read == read && this.target == target && this.listing == listing
      ensures state == NotStarted && checkpointIdx == 0 && budget == None
      ensures sink == map t | t in listing :: []
    {
      this.read, this.target, this.listing := read, target, listing;
      work := new WorkState();
      state, budget, checkpointIdx, spawned := NotStarted, None, 0, None;
      sink := map t | t in listing :: [];
    }

    /** Writes the first batch of every table.  Only a new pipeline may be
        initialized; a missing first batch stops it. */
    method Initialize() returns (ok: bool)
      requires Valid()
      modifies this
      ensures Valid() && work.steps == old(work.steps) && work.finished == old(work.finished)
      ensures checkpointIdx == old(checkpointIdx) && budget == old(budget)
      ensures old(state) != NotStarted ==> !ok && state == old(state) && sink == old(sink)
      ensures old(state) == NotStarted ==> (ok <==> FirstsPresent(read, listing))
      ensures old(state) == NotStarted ==> state == (if ok then Initialized else Stopped(Failed))
      ensures ok ==> sink == Seeded(listing, old(sink))
    {
      if state != NotStarted {
        return false;
      }
      ok, sink := WriteFirsts(read, listing, sink);
      state := if ok then Initialized else Stopped(Failed);
    }

    /** The background task of a run segment starts. */
    method Spawn(limit: Option<nat>)
      modifies `state, `spawned
      ensures state == Active && spawned == limit
    {
      state, spawned := Active, limit;
    }

    /** Rebuilds the plan and runs with a budget, from whatever state. */
    method Run(steps: nat)
      requires Valid()
      modifies this, work
      ensures Valid() && state == Active && spawned == Some(steps) && budget == Some(steps)
      ensures checkpointIdx == old(checkpointIdx) && sink == old(sink)
      ensures View() == Ref(Planned(listing, old(state) == Initialized), {}, old(sink))
    {
      budget := Some(steps);
      work.Build(listing, state == Initialized);
      Spawn(Some(steps));
      assert View().todo == Planned(listing, old(state) == Initialized);
    }

    /** Like `Run` without a budget, but only after `Initialize`. */
    method Start() returns (ok: bool)
      requires Valid()
      modifies this, work
      ensures Valid() && sink == old(sink) && checkpointIdx == old(checkpointIdx)
      ensures ok <==> old(state) == Initialized
      ensures !ok ==> state == old(state) && View() == old(View()) && budget == old(budget)
      ensures ok ==> state == Active && spawned == None && budget == None
      ensures ok ==> View() == Ref(Planned(listing, true), {}, old(sink))
    {
      if state != Initialized {
        return false;
      }
      budget := None;
      work.Build(listing, true);
      Spawn(None);
      assert View().todo == Planned(listing, true);
      return true;
    }

    /** Resumes a paused pipeline with the current budget. */
    method Continue() returns (ok: bool)
      requires Valid()
      modifies `state, `spawned, `checkpointIdx
      ensures Valid() && View() == old(View())
      ensures ok <==> old(state) == AtCheckpoint
      ensures !ok ==> state == old(state) && checkpointIdx == old(checkpointIdx) && spawned == old(spawned)
      ensures ok ==> state == Active && checkpointIdx == old(checkpointIdx) + 1 && spawned == budget
    {
      if state != AtCheckpoint {
        return false;
      }
      checkpointIdx := checkpointIdx + 1;
      Spawn(budget);
      return true;
    }

    method SetBatchBudget(steps: nat)
      modifies `budget
      ensures budget == Some(steps)
    {
      budget := Some(steps);
    }

    /** The background task has stopped.  A zero budget pauses without progress.  Any
        other segment leaves the work and the state the reference prescribes, and
        has advanced the pipeline exactly as the reference does if and only if no
        read was void; with non-empty stored batches that is always so. */
    method Wait()
      requires Valid() && state == Active
      modifies this, work
      ensures Valid() && checkpointIdx == old(checkpointIdx) && budget == old(budget) && spawned == old(spawned)
      ensures spawned == Some(0) ==> View() == old(View()) && state == AtCheckpoint
      ensures spawned != Some(0) ==>
        && RefOk(old(View()))
        && View().todo == Advance(read, old(View()), spawned).todo
        && (View() == Advance(read, old(View()), spawned) <==>
              NoVoid(Env(read, target, Boundary(old(work.steps), spawned)), old(work.steps), old(work.finished)))
        && (FullBatches(read) ==> View() == Advance(read, old(View()), spawned))
        && state == (if Pauses(old(View()), spawned) then AtCheckpoint else Stopped(Done))
    {
      if spawned == Some(0) {
        state := AtCheckpoint;
        return;
      }
      var P, F := work.steps, work.finished;
      var s := RunPipeline(read, target, spawned, P, F);
      ghost var e := Env(read, target, Boundary(P, spawned));
      Refines(listing.Keys, e, spawned, P, F, sink, s);
      if FullBatches(read) {
        FullBatchesNoVoid(e, P, F);
      }
      work.steps, work.finished := s.plan, s.finished;
      sink := NewSink(listing.Keys, sink, s.out);
      state := if s.status == Paused then AtCheckpoint else Stopped(Done);
    }

    /** A whole run: initialize, run with a budget, and continue with any budgets until
        it completes.  Every table then has each listed batch exactly once and in
        ascending order, up to the first one missing from storage. */
    method Complete(first: nat, budgets: nat -> nat) returns (ok: bool)
      requires Valid() && FullBatches(read) && state == NotStarted && sink == (map t | t in listing :: [])
      requires 0 < first && forall i :: 0 < budgets(i)
      modifies this, work
      ensures Valid() && (ok <==> FirstsPresent(read, listing))
      ensures ok ==> state == Stopped(Done)
      ensures ok ==> forall t :: t in listing && LeastFirst(listing[t]) ==> sink[t] == Everything(read, listing[t], t)
    {
      hide Promised;
      hide Keys;
      hide Everything;
      ghost var r;
      ok, r := Launch(first);
      if !ok {
        return;
      }
      r := Segment(r, first);
      Finish(budgets, r);
    }

    /** Continues with any budgets until nothing is left. */
    method Finish(budgets: nat -> nat, ghost r0: Ref)
      requires Valid() && FullBatches(read) && (forall i :: 0 < budgets(i))
      requires View() == r0 && Promised(read, listing, r0)
      requires state == AtCheckpoint || (state == Stopped(Done) && Keys(r0.todo) == {})
      modifies this, work
      ensures Valid() && state == Stopped(Done)
      ensures forall t :: t in listing && LeastFirst(listing[t]) ==> sink[t] == Everything(read, listing[t], t)
    {
      hide Promised;
      hide Keys;
      hide Everything;
      ghost var r := r0;
      var i := 0;
      while state == AtCheckpoint
        invariant Valid() && View() == r && Promised(read, listing, r)
        invariant state == AtCheckpoint || (state == Stopped(Done) && Keys(r.todo) == {})
        decreases |Keys(r.todo)|, state == AtCheckpoint
      {
        SetBatchBudget(budgets(i));
        var resumed := Continue();
        r := Segment(r, budgets(i));
        i := i + 1;
      }
      PromiseKept(read, listing, r);
    }

    /** Initializes and starts the first segment. */
    method Launch(first: nat) returns (ok: bool, ghost r: Ref)
      requires Valid() && state == NotStarted && sink == (map t | t in listing :: [])
      modifies this, work
      ensures Valid() && (ok <==> FirstsPresent(read, listing))
      ensures ok ==> state == Active && spawned == Some(first) && View() == r && Promised(read, listing, r)
    {
      hide Promised;
      ok := Initialize();
      r := Loaded(listing, true, SeedSink(listing));
      if ok {
        Run(first);
        SeedAll(read, listing);
      }
    }

    /** Waits for one segment of a whole run. */
    method Segment(ghost r: Ref, ghost limit: nat) returns (ghost r': Ref)
      requires Valid() && FullBatches(read) && state == Active && spawned == Some(limit) && 0 < limit
      requires View() == r && Promised(read, listing, r)
      modifies this, work
      ensures Valid() && View() == r' && Promised(read, listing, r')
      ensures state == AtCheckpoint || (state == Stopped(Done) && Keys(r'.todo) == {})
      ensures state == AtCheckpoint ==> |Keys(r'.todo)| < |Keys(r.todo)|
    {
      Wait();
      r' := View();
      AdvanceKeys(read, r, limit);
      PromiseAdvances(read, listing, r, limit);
    }
  }

  /** What has been written and what is to come amount to everything listed. */
  ghost predicate Promised(read: Source, listing: map<Table, seq<nat>>, r: Ref) {
    && RefOk(r) && r.todo.Keys == listing.Keys
    && forall t :: t in listing && LeastFirst(listing[t]) ==> Prospect(read, r, t) == Everything(read, listing[t], t)
  }

  lemma {:induction false} SeedAll(read: Source, listing: map<Table, seq<nat>>)
    requires FirstsPresent(read, listing)
    ensures Promised(read, listing, Loaded(listing, true, SeedSink(listing)))
  {
    forall t | t in listing && LeastFirst(listing[t])
      ensures Prospect(read, Loaded(listing, true, SeedSink(listing)), t) == Everything(read, listing[t], t)
    {
      SeedProspect(read, listing, t);
    }
  }

  lemma {:induction false} PromiseAdvances(read: Source, listing: map<Table, seq<nat>>, r: Ref, limit: nat)
    requires Promised(read, listing, r)
    ensures Promised(read, listing, Advance(read, r, Some(limit)))
  {
    hide Prospect;
    hide Advance;
    forall t | t in listing && LeastFirst(listing[t])
      ensures Prospect(read, Advance(read, r, Some(limit)), t) == Everything(read, listing[t], t)
    {
      AdvanceKeepsProspect(read, r, Some(limit), t);
    }
  }

  lemma {:induction false} PromiseKept(read: Source, listing: map<Table, seq<nat>>, r: Ref)
    requires Promised(read, listing, r) && Keys(r.todo) == {}
    ensures forall t :: t in listing && LeastFirst(listing[t]) ==> r.sink[t] == Everything(read, listing[t], t)
  {
    forall t | t in listing && LeastFirst(listing[t])
      ensures r.sink[t] == Everything(read, listing[t], t)
    {
      RunDeliversExactly(read, r, [], t);
    }
  }
}
