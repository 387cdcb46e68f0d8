/** Every schedule of a run segment is finite and none gets stuck, so
    `run_pipeline` always returns, with the one possible outcome. */
module SegmentProgress {
  import opened Prelude
  import opened WorkPlan
  import opened Records
  import opened Reader
  import opened TableLane
  import opened RunSegment
  import opened SegmentSafety
  import opened SegmentOutcome
  import opened SegmentCounts

  // ---------------------------------------------------------------------
  // The measure: lexicographically smaller after every step.
  // ---------------------------------------------------------------------

  function StageWeight(tasks: map<Table, Task>, t: Table): nat {
    if t !in tasks then 0
    else match tasks[t].stage
      case Reading => 2
      case Read(_) => 1
      case Written(_) => 0
  }

  ghost function StageWeights(tasks: map<Table, Task>): Table -> nat {
    (t: Table) => StageWeight(tasks, t)
  }

  function Effort(plan: Plan, tasks: map<Table, Task>, t: Table): nat {
    3 * |Ids(plan, t)| +
    if t in tasks then (if tasks[t].canReserve then 1 else 0) + |tasks[t].inFlight| else 0
  }

  ghost function Efforts(plan: Plan, tasks: map<Table, Task>): Table -> nat {
    (t: Table) => Effort(plan, tasks, t)
  }

  function Phase(s: Segment): nat {
    if s.busy then (if s.tasks == map[] then 2 else 0) else 1
  }

  datatype Rank = Rank(running: nat, load: nat, phase: nat, stages: nat, effort: nat)

  ghost function RankOf(us: seq<Table>, s: Segment): Rank {
    Rank(if s.status == Running then 1 else 0, Sum(us, Loads(s.plan, s.tasks)), Phase(s),
         Sum(us, StageWeights(s.tasks)), Sum(us, Efforts(s.plan, s.tasks)))
  }

  ghost predicate Below(a: Rank, b: Rank) {
    || a.running < b.running
    || (a.running == b.running && a.load < b.load)
    || (a.running == b.running && a.load == b.load && a.phase < b.phase)
    || (a.running == b.running && a.load == b.load && a.phase == b.phase && a.stages < b.stages)
    || (a.running == b.running && a.load == b.load && a.phase == b.phase && a.stages == b.stages && a.effort < b.effort)
  }

  /** How one table's own step moves the measure. */
  lemma {:induction false} MoveRank(us: seq<Table>, total: nat, s: Segment, s': Segment, t: Table)
    requires Counted(us, total, s) && Moves(s, s', t) && s'.status == s.status
    requires || StageWeight(s'.tasks, t) < StageWeight(s.tasks, t)
             || (StageWeight(s'.tasks, t) == StageWeight(s.tasks, t) &&
                 Effort(s'.plan, s'.tasks, t) < Effort(s.plan, s.tasks, t))
    ensures Below(RankOf(us, s'), RankOf(us, s))
  {
    MoveSums(us, total, s, s', t);
    hide StageWeights;
    hide Efforts;
    hide Loads;
    assert s.tasks != map[] && s'.tasks != map[] by {
      assert t in s.tasks && t in s'.tasks;
    }
  }

  lemma {:induction false} MoveSums(us: seq<Table>, total: nat, s: Segment, s': Segment, t: Table)
    requires Counted(us, total, s) && Moves(s, s', t)
    ensures Sum(us, Loads(s'.plan, s'.tasks)) == Sum(us, Loads(s.plan, s.tasks))
    ensures Sum(us, StageWeights(s'.tasks)) + StageWeight(s.tasks, t) == Sum(us, StageWeights(s.tasks)) + StageWeight(s'.tasks, t)
    ensures Sum(us, Efforts(s'.plan, s'.tasks)) + Effort(s.plan, s.tasks, t) == Sum(us, Efforts(s.plan, s.tasks)) + Effort(s'.plan, s'.tasks, t)
  {
    SumSame(us, Loads(s'.plan, s'.tasks), Loads(s.plan, s.tasks));
    SumOne(us, StageWeights(s.tasks), StageWeights(s'.tasks), t);
    SumOne(us, Efforts(s.plan, s.tasks), Efforts(s'.plan, s'.tasks), t);
  }

  lemma {:induction false} ReserveRank(us: seq<Table>, total: nat, e: Env, P: Plan, F: set<Table>, s: Segment, t: Table)
    requires Counted(us, total, s) && Inv(e, P, F, s) && t in s.tasks && WantsReserve(e, s.tasks[t])
    ensures Below(RankOf(us, Reserved(e, s, t)), RankOf(us, s))
  {
    var k, s' := s.tasks[t], Reserved(e, s, t);
    ReserveCounted(us, total, e, P, F, s, t);
    var n := NextId(s.plan, t, k.cursor, e.max);
    if n.Some? {
      TakeEffect(s.plan, n.value, t);
      assert n.value in Ids(s.plan, t);
      assert Ids(s.plan, t) == Ids(s'.plan, t) + {n.value};
      GrowByOne(k.inFlight, n.value);
    }
    MoveRank(us, total, s, s', t);
  }

  lemma {:induction false} GrowByOne(a: set<nat>, x: nat)
    ensures |a + {x}| <= |a| + 1
  {
    if x in a {
      assert a + {x} == a;
    }
  }

  /** A completed read either ends the task's reading or leaves one read fewer. */
  lemma {:induction false} CompleteEffort(e: Env, t: Table, k: Task, id: nat)
    requires k.stage.Reading? && id in k.inFlight
    ensures var c := Complete(e, t, k, id);
      if c.task.stage.Reading? then
        c.back == [] && c.task.canReserve == k.canReserve && |c.task.inFlight| == |k.inFlight| - 1
      else c.task.stage.Read?
  {
    DrainFrames(e, t, Arrive(k, id));
    assert |k.inFlight| == |k.inFlight - {id}| + 1;
  }

  lemma {:induction false} ArriveRank(us: seq<Table>, total: nat, e: Env, P: Plan, F: set<Table>, s: Segment, t: Table, id: nat)
    requires Counted(us, total, s) && Inv(e, P, F, s) && t in s.tasks && s.tasks[t].stage.Reading?
    requires id in s.tasks[t].inFlight && !WantsReserve(e, s.tasks[t])
    ensures Below(RankOf(us, Arrived(e, s, t, id)), RankOf(us, s))
  {
    assert TaskCounted(s.tasks[t]);
    ArriveMoves(e, P, F, s, t, id);
    CompleteEffort(e, t, s.tasks[t], id);
    MoveRank(us, total, s, Arrived(e, s, t, id), t);
  }

  lemma {:induction false} WriteRank(us: seq<Table>, total: nat, e: Env, s: Segment, t: Table)
    requires Counted(us, total, s) && t in s.tasks && s.tasks[t].stage.Read?
    ensures Below(RankOf(us, Wrote(e, s, t)), RankOf(us, s))
  {
    WriteCounted(us, total, e, s, t);
    MoveRank(us, total, s, Wrote(e, s, t), t);
  }

  /** Termination: although reservations are handed back, every step lowers the
      measure. */
  lemma {:induction false} StepDescends(us: seq<Table>, total: nat, e: Env, limit: Option<nat>, P: Plan, F: set<Table>, s: Segment, a: Action)
    requires Counted(us, total, s) && Inv(e, P, F, s) && Enabled(e, limit, s, a)
    ensures Below(RankOf(us, Next(e, limit, s, a)), RankOf(us, s))
  {
    match a
    case Pop =>
      PopCounted(us, total, e, s);
      PopPhase(e, s);
    case Reserving(t) => ReserveRank(us, total, e, P, F, s, t);
    case Arriving(t, id) => ArriveRank(us, total, e, P, F, s, t, id);
    case Writing(t) => WriteRank(us, total, e, s, t);
    case Joining(t) => JoinCounted(us, total, s, t);
    case Ending =>
    case Leaving =>
  }

  lemma {:induction false} PopPhase(e: Env, s: Segment)
    requires !s.busy && HasNext(e, s)
    ensures Popped(s).status == s.status
    ensures Popped(s).busy ==> Phase(Popped(s)) == 0
  {
    var active := Active(s.plan[Least(s.plan.Keys)], s.finished);
    if active != [] {
      assert active[0] in Popped(s).tasks;
    }
  }

  /** Progress: a running segment always has an enabled step. */
  lemma {:induction false} SomeStep(e: Env, limit: Option<nat>, P: Plan, F: set<Table>, s: Segment) returns (a: Action)
    requires Inv(e, P, F, s) && s.status == Running
    ensures Enabled(e, limit, s, a)
  {
    if !s.busy {
      return if LimitReached(limit, s) || !HasNext(e, s) then Leaving else Pop;
    }
    if s.tasks == map[] {
      return Ending;
    }
    var t :| t in s.tasks;
    TaskLane(e, P, F, s, t);
    match s.tasks[t].stage
    case Reading =>
      return if WantsReserve(e, s.tasks[t]) then Reserving(t) else Arriving(t, s.tasks[t].scheduled[0]);
    case Read(_) => return Writing(t);
    case Written(_) => return Joining(t);
  }

  lemma {:induction false} ListSet<T>(s: set<T>) returns (l: seq<T>)
    ensures Distinct(l) && Elems(l) == s
  {
    if s == {} {
      l := [];
    } else {
      var x :| x in s;
      var r := ListSet(s - {x});
      assert x !in Elems(r);
      l := [x] + r;
      assert Elems(l) == {x} + Elems(r);
    }
  }

  lemma {:induction false} CoverOf(P: Plan) returns (us: seq<Table>)
    ensures Covers(us, P)
  {
    var all := set id, t | id in P && t in P[id] :: t;
    us := ListSet(all);
    forall id, t | id in P && t in P[id]
      ensures t in us
    {
      assert t in all;
      assert t in Elems(us);
    }
  }

  /** From every state that can occur, some schedule stops the segment. */
  lemma {:induction false} CanStop(us: seq<Table>, total: nat, e: Env, limit: Option<nat>, P: Plan, F: set<Table>, s: Segment)
    returns (acts: seq<Action>, s': Segment)
    requires Inv(e, P, F, s) && Counted(us, total, s)
    ensures Reaches(e, limit, s, acts, s') && s'.status != Running
    decreases RankOf(us, s).running, RankOf(us, s).load, RankOf(us, s).phase, RankOf(us, s).stages, RankOf(us, s).effort
  {
    if s.status != Running {
      return [], s;
    }
    hide Inv;
    hide Counted;
    var a := SomeStep(e, limit, P, F, s);
    StepKeeps(e, limit, P, F, s, a);
    StepCounted(us, total, e, limit, P, F, s, a);
    StepDescends(us, total, e, limit, P, F, s, a);
    var rest;
    rest, s' := CanStop(us, total, e, limit, P, F, Next(e, limit, s, a));
    acts := [a] + rest;
    assert acts[1..] == rest;
  }

  /** `run_pipeline`: the scheduler picks any enabled step until the segment has
      stopped.  It always stops, and always with the same outcome. */
  method RunPipeline(read: Source, target: nat, limit: Option<nat>, P: Plan, F: set<Table>)
    returns (s: Segment)
    requires Wf(P) && limit != Some(0) && 0 < target
    ensures Outcome(Env(read, target, Boundary(P, limit)), P, F, s)
  {
    var e := Env(read, target, Boundary(P, limit));
    s := Begin(P, F);
    ghost var us := CoverOf(P);
    ghost var total := UnitsLeft(us, P);
    BeginInv(e, P, F);
    BeginCounted(us, P, F);
    while s.status == Running
      invariant Inv(e, P, F, s) && Settled(e, limit, s) && Counted(us, total, s)
      decreases RankOf(us, s).running, RankOf(us, s).load, RankOf(us, s).phase, RankOf(us, s).stages, RankOf(us, s).effort
    {
      ghost var some := SomeStep(e, limit, P, F, s);
      var a :| Enabled(e, limit, s, a);
      StepKeeps(e, limit, P, F, s, a);
      StepSettles(e, limit, s, a);
      StepCounted(us, total, e, limit, P, F, s, a);
      StepDescends(us, total, e, limit, P, F, s, a);
      s := Next(e, limit, s, a);
    }
    LeftOutcome(e, limit, P, F, s);
  }
}
