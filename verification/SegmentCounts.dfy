/** Bookkeeping of a run segment: no work unit is lost or counted twice, the
    per-task counter never saturates and the logical step counter never goes
    below zero. */
module SegmentCounts {
  import opened Prelude
  import opened WorkPlan
  import opened Records
  import opened Reader
  import opened TableLane
  import opened RunSegment
  import opened SegmentSafety

  /** The units of a table that are in the plan or with its task. */
  function Load(plan: Plan, tasks: map<Table, Task>, t: Table): nat {
    |Ids(plan, t)| + if t in tasks then tasks[t].consumed else 0
  }

  ghost function Loads(plan: Plan, tasks: map<Table, Task>): Table -> nat {
    (t: Table) => Load(plan, tasks, t)
  }

  /** Units left in a plan, over a list of tables that covers it. */
  ghost function UnitsLeft(us: seq<Table>, plan: Plan): nat {
    Sum(us, Loads(plan, map[]))
  }

  /** Reservations of a table that were counted as logical steps of their own. */
  function Mark(tasks: map<Table, Task>, t: Table): nat {
    if t in tasks then Flagged(tasks[t].removed, tasks[t].scheduled) else 0
  }

  ghost function Marks(tasks: map<Table, Task>): Table -> nat {
    (t: Table) => Mark(tasks, t)
  }

  ghost predicate Covers(us: seq<Table>, P: Plan) {
    Distinct(us) && forall id, t :: id in P && t in P[id] ==> t in us
  }

  ghost predicate TaskCounted(k: Task) {
    && 0 < k.consumed
    && (k.stage.Reading? ==> k.consumed == |k.drained| + |k.scheduled|)
  }

  ghost predicate Counted(us: seq<Table>, total: nat, s: Segment) {
    && Covers(us, s.plan)
    && (forall t :: t in s.tasks ==> t in us && TaskCounted(s.tasks[t]))
    && (!s.busy ==> s.tasks == map[] && s.stepCount == 0)
    && s.processed + s.stepCount + Sum(us, Loads(s.plan, s.tasks)) == total
    && Sum(us, Marks(s.tasks)) <= s.logical
  }

  lemma {:induction false} SumZero<T>(us: seq<T>, f: T -> nat)
    requires forall u :: u in us ==> f(u) == 0
    ensures Sum(us, f) == 0
  {
    if us != [] {
      SumZero(us[1..], f);
    }
  }

  lemma {:induction false} BeginCounted(us: seq<Table>, P: Plan, F: set<Table>)
    requires Covers(us, P)
    ensures Counted(us, UnitsLeft(us, P), Begin(P, F))
  {
    SumZero(us, Marks(map[]));
  }

  lemma {:induction false} PopLoad(plan: Plan, id: nat, active: seq<Table>, tasks: map<Table, Task>, u: Table)
    requires id in plan && forall t :: t in active ==> t in plan[id]
    requires forall t :: t in tasks <==> t in active
    requires forall t :: t in tasks ==> tasks[t] == NewTask(id)
    ensures Load(plan, map[], u) + Member(active)(u) == Load(plan - {id}, tasks, u) + Member(plan[id])(u)
  {
    if u in plan[id] {
      assert id in Ids(plan, u);
      assert Ids(plan, u) == Ids(plan - {id}, u) + {id};
    } else {
      assert Ids(plan, u) == Ids(plan - {id}, u);
    }
  }

  lemma {:induction false} NewTaskMark(tasks: map<Table, Task>, id: nat, u: Table)
    requires forall t :: t in tasks ==> tasks[t] == NewTask(id)
    ensures Mark(tasks, u) == 0
  {
    if u in tasks {
      var k := NewTask(id);
      assert k.scheduled[1..] == [];
      assert Flagged(k.removed, k.scheduled) == 0;
    }
  }

  lemma {:induction false} PopLoads(us: seq<Table>, plan: Plan, id: nat, active: seq<Table>, tasks: map<Table, Task>)
    requires Covers(us, plan) && id in plan && Distinct(plan[id]) && Distinct(active)
    requires forall t :: t in active ==> t in plan[id]
    requires forall t :: t in tasks <==> t in active
    requires forall t :: t in tasks ==> tasks[t] == NewTask(id)
    ensures Sum(us, Loads(plan, map[])) + |active| == Sum(us, Loads(plan - {id}, tasks)) + |plan[id]|
    ensures Sum(us, Marks(tasks)) == 0
  {
    forall u | u in us
      ensures Loads(plan, map[])(u) + Member(active)(u) == Loads(plan - {id}, tasks)(u) + Member(plan[id])(u)
      ensures Marks(tasks)(u) == 0
    {
      PopLoad(plan, id, active, tasks, u);
      NewTaskMark(tasks, id, u);
    }
    SumBalance(us, Loads(plan, map[]), Member(active), Loads(plan - {id}, tasks), Member(plan[id]));
    SumMember(us, plan[id]);
    SumMember(us, active);
    SumZero(us, Marks(tasks));
  }

  lemma {:induction false} PopCounted(us: seq<Table>, total: nat, e: Env, s: Segment)
    requires Counted(us, total, s) && Wf(s.plan) && !s.busy && HasNext(e, s)
    ensures Counted(us, total, Popped(s))
    ensures Sum(us, Loads(Popped(s).plan, Popped(s).tasks)) <= Sum(us, Loads(s.plan, s.tasks))
    ensures !Popped(s).busy ==>
      Sum(us, Loads(Popped(s).plan, Popped(s).tasks)) < Sum(us, Loads(s.plan, s.tasks))
  {
    var id, s' := Least(s.plan.Keys), Popped(s);
    var ts, active := s.plan[id], Active(s.plan[id], s.finished);
    ActiveElems(ts, s.finished);
    assert Distinct(ts);
    assert forall t :: t in s'.tasks <==> t in active;
    PopLoads(us, s.plan, id, active, s'.tasks);
  }

  /** A step of the task of `t` that moves units between it and the plan. */
  ghost predicate Moves(s: Segment, s': Segment, t: Table) {
    && t in s.tasks && t in s'.tasks && s'.tasks == s.tasks[t := s'.tasks[t]]
    && (forall u :: u != t ==> Ids(s'.plan, u) == Ids(s.plan, u))
    && Load(s'.plan, s'.tasks, t) == Load(s.plan, s.tasks, t)
    && s'.busy == s.busy && s'.processed == s.processed && s'.stepCount == s.stepCount
    && TaskCounted(s'.tasks[t])
    && s'.logical - Mark(s'.tasks, t) >= s.logical - Mark(s.tasks, t)
  }

  lemma {:induction false} MoveCounted(us: seq<Table>, total: nat, s: Segment, s': Segment, t: Table)
    requires Counted(us, total, s) && Moves(s, s', t)
    ensures Counted(us, total, s')
  {
    forall id, u | id in s'.plan && u in s'.plan[id]
      ensures u in us
    {
      if u != t {
        assert id in Ids(s'.plan, u);
        assert id in Ids(s.plan, u);
      }
    }
    forall u | u in us
      ensures Loads(s'.plan, s'.tasks)(u) == Loads(s.plan, s.tasks)(u)
    {
    }
    SumSame(us, Loads(s'.plan, s'.tasks), Loads(s.plan, s.tasks));
    SumOne(us, Marks(s.tasks), Marks(s'.tasks), t);
  }

  lemma {:induction false} FlaggedSnoc(removed: map<nat, bool>, ids: seq<nat>, id: nat, flag: bool)
    requires id !in ids
    ensures Flagged(removed[id := flag], ids + [id]) == Flagged(removed, ids) + (if flag then 1 else 0)
  {
    if ids != [] {
      assert (ids + [id])[1..] == ids[1..] + [id];
      FlaggedSnoc(removed, ids[1..], id, flag);
    } else {
      assert [] + [id] == [id] && [id][1..] == [];
    }
  }

  lemma {:induction false} FlaggedSuffix(removed: map<nat, bool>, ids: seq<nat>, removed': map<nat, bool>, n: nat)
    requires n <= |ids|
    requires forall x :: x in removed' ==> x in removed && removed'[x] == removed[x]
    ensures Flagged(removed', ids[n..]) <= Flagged(removed, ids)
    decreases |ids|
  {
    if ids == [] {
      assert ids[n..] == [];
    } else if n == 0 {
      FlaggedSuffix(removed, ids[1..], removed', 0);
      assert ids[0..] == ids && ids[1..][0..] == ids[1..];
    } else {
      FlaggedSuffix(removed, ids[1..], removed', n - 1);
      assert ids[1..][n - 1..] == ids[n..];
    }
  }

  lemma {:induction false} ReserveCounted(us: seq<Table>, total: nat, e: Env, P: Plan, F: set<Table>, s: Segment, t: Table)
    requires Counted(us, total, s) && Inv(e, P, F, s) && t in s.tasks && WantsReserve(e, s.tasks[t])
    ensures Counted(us, total, Reserved(e, s, t))
    ensures Moves(s, Reserved(e, s, t), t)
  {
    var k := s.tasks[t];
    assert TaskCounted(k);
    var n := NextId(s.plan, t, k.cursor, e.max);
    if n.Some? {
      NextNotScheduled(e, P, F, s, t, n.value);
      ReserveMoves(e, s, t, n.value);
    }
    assert Moves(s, Reserved(e, s, t), t);
    MoveCounted(us, total, s, Reserved(e, s, t), t);
  }

  lemma {:induction false} ReserveMoves(e: Env, s: Segment, t: Table, id: nat)
    requires Wf(s.plan) && t in s.tasks && TaskCounted(s.tasks[t]) && s.tasks[t].stage.Reading?
    requires NextId(s.plan, t, s.tasks[t].cursor, e.max) == Some(id) && id !in s.tasks[t].scheduled
    ensures Moves(s, Reserved(e, s, t), t)
  {
    var k, plan := s.tasks[t], Take(s.plan, id, t);
    TakeEffect(s.plan, id, t);
    assert id in Ids(s.plan, t);
    assert Ids(s.plan, t) == Ids(plan, t) + {id};
    FlaggedSnoc(k.removed, k.scheduled, id, id !in plan);
  }

  lemma {:induction false} NextNotScheduled(e: Env, P: Plan, F: set<Table>, s: Segment, t: Table, id: nat)
    requires Inv(e, P, F, s) && t in s.tasks && s.tasks[t].stage.Reading?
    requires id in s.plan && t in s.plan[id] && Within(e.max, id)
    ensures id !in s.tasks[t].scheduled
  {
    Reservations(e, P, F, s, t);
    assert id in ScopeIds(e, s.plan, t);
  }

  /** What a task hands back is a list without repetition of units that are out
      of the plan. */
  lemma {:induction false} BackOutOfPlan(e: Env, P: Plan, F: set<Table>, s: Segment, t: Table, back: seq<nat>)
    requires Inv(e, P, F, s) && t in s.tasks && s.tasks[t].stage.Reading?
    requires |back| < |s.tasks[t].scheduled| && back == s.tasks[t].scheduled[|s.tasks[t].scheduled| - |back|..]
    ensures Distinct(back) && Elems(back) !! Ids(s.plan, t)
  {
    Reservations(e, P, F, s, t);
    assert Ascending(back);
    forall x | x in Elems(back)
      ensures x !in Ids(s.plan, t)
    {
      assert x in s.tasks[t].scheduled && x in Elems(s.tasks[t].scheduled);
      assert x in ScopeIds(e, P, t);
      assert x !in ScopeIds(e, s.plan, t);
    }
  }

  /** A hand-back never exceeds what the task has counted: `saturating_sub` on
      the task's counter subtracts exactly. */
  lemma {:induction false} NeverSaturates(e: Env, t: Table, k: Task, id: nat)
    requires k.stage.Reading? && TaskCounted(k)
    ensures var c := Complete(e, t, k, id);
      && |c.back| < k.consumed
      && c.task.consumed == k.consumed - |c.back|
      && TaskCounted(c.task)
  {
    DrainCount(e, t, Arrive(k, id));
    DrainFrames(e, t, Arrive(k, id));
  }

  lemma {:induction false} DrainCount(e: Env, t: Table, k: Task)
    requires k.consumed == |k.drained| + |k.scheduled|
    ensures var d := Drain(e, t, k);
      && d.task.consumed == k.consumed
      && k.consumed == |d.task.drained| + |d.task.scheduled| +
           (if d.end.MissingFirst? || d.end.MissingLater? then 1 else 0)
      && (d.end.Full? ==> d.task.drained != [])
    decreases |k.scheduled|
  {
    if k.scheduled != [] && k.scheduled[0] in k.completed && e.read(t, k.scheduled[0]).Some? {
      var j := TakeOver(e, t, k);
      if j.rows < e.target {
        DrainUnfold(e, t, k);
        DrainCount(e, t, j);
      }
    }
  }

  lemma {:induction false} MarkArrive(e: Env, t: Table, k: Task, id: nat)
    ensures var c := Complete(e, t, k, id);
      Flagged(c.task.removed, c.task.scheduled) + c.flagged <= Flagged(k.removed, k.scheduled)
  {
    hide Drain;
    var d := Drain(e, t, Arrive(k, id));
    DrainFrames(e, t, Arrive(k, id));
    FlaggedSuffix(k.removed, k.scheduled, d.task.removed, |k.scheduled| - |d.task.scheduled|);
  }

  lemma {:induction false} BackLoad(s: Segment, s': Segment, t: Table, c: Completion)
    requires t in s.tasks && t in s'.tasks && s'.tasks[t] == c.task
    requires Ids(s'.plan, t) == Ids(s.plan, t) + Elems(c.back)
    requires Distinct(c.back) && Elems(c.back) !! Ids(s.plan, t)
    requires |c.back| < s.tasks[t].consumed && c.task.consumed == s.tasks[t].consumed - |c.back|
    ensures Load(s'.plan, s'.tasks, t) == Load(s.plan, s.tasks, t)
  {
    DistinctCard(c.back);
  }

  lemma {:induction false} ArrivePlan(e: Env, P: Plan, F: set<Table>, s: Segment, t: Table, id: nat, c: Completion, plan: Plan)
    requires Inv(e, P, F, s) && t in s.tasks && s.tasks[t].stage.Reading?
    requires id in s.tasks[t].inFlight && !WantsReserve(e, s.tasks[t])
    requires c == Complete(e, t, s.tasks[t], id) && plan == GiveAll(s.plan, c.back, t)
    ensures Ids(plan, t) == Ids(s.plan, t) + Elems(c.back)
    ensures forall u :: u != t ==> Ids(plan, u) == Ids(s.plan, u)
    ensures Distinct(c.back) && Elems(c.back) !! Ids(s.plan, t)
  {
    ArriveLane(e, P, F, s, t, id, c);
    TaskLane(e, P, F, s, t);
    assert Wf(s.plan);
    hide LaneOk;
    hide Complete;
    hide GiveAll;
    LaneComplete(e, t, Scope(e, P, t), LaneOf(e, s, t), id);
    hide LaneOf;
    BackOutOfPlan(e, P, F, s, t, c.back);
    hide Inv;
    hide WantsReserve;
    hide ScopeIds;
    hide Wf;
    GiveAllEffect(s.plan, c.back, t);
    hide Ids;
    hide Units;
  }

  lemma {:induction false} ArriveMoves(e: Env, P: Plan, F: set<Table>, s: Segment, t: Table, id: nat)
    requires Inv(e, P, F, s) && t in s.tasks && s.tasks[t].stage.Reading? && TaskCounted(s.tasks[t])
    requires id in s.tasks[t].inFlight && !WantsReserve(e, s.tasks[t])
    ensures Moves(s, Arrived(e, s, t, id), t)
  {
    var c, s' := Complete(e, t, s.tasks[t], id), Arrived(e, s, t, id);
    NeverSaturates(e, t, s.tasks[t], id);
    ArrivePlan(e, P, F, s, t, id, c, s'.plan);
    BackLoad(s, s', t, c);
    MarkArrive(e, t, s.tasks[t], id);
  }

  lemma {:induction false} ArriveCounted(us: seq<Table>, total: nat, e: Env, P: Plan, F: set<Table>, s: Segment, t: Table, id: nat)
    requires Counted(us, total, s) && Inv(e, P, F, s) && t in s.tasks && s.tasks[t].stage.Reading?
    requires id in s.tasks[t].inFlight && !WantsReserve(e, s.tasks[t])
    ensures Counted(us, total, Arrived(e, s, t, id))
  {
    assert TaskCounted(s.tasks[t]);
    ArriveMoves(e, P, F, s, t, id);
    MoveCounted(us, total, s, Arrived(e, s, t, id), t);
  }

  lemma {:induction false} JoinCounted(us: seq<Table>, total: nat, s: Segment, t: Table)
    requires Counted(us, total, s) && t in s.tasks && s.tasks[t].stage.Written?
    ensures Counted(us, total, Joined(s, t))
    ensures Sum(us, Loads(Joined(s, t).plan, Joined(s, t).tasks)) < Sum(us, Loads(s.plan, s.tasks))
  {
    var s' := Joined(s, t);
    assert TaskCounted(s.tasks[t]);
    SumOne(us, Loads(s.plan, s.tasks), Loads(s'.plan, s'.tasks), t);
    SumOne(us, Marks(s.tasks), Marks(s'.tasks), t);
  }

  lemma {:induction false} WriteCounted(us: seq<Table>, total: nat, e: Env, s: Segment, t: Table)
    requires Counted(us, total, s) && t in s.tasks && s.tasks[t].stage.Read?
    ensures Counted(us, total, Wrote(e, s, t)) && Moves(s, Wrote(e, s, t), t)
  {
    assert TaskCounted(s.tasks[t]);
    assert Moves(s, Wrote(e, s, t), t);
    MoveCounted(us, total, s, Wrote(e, s, t), t);
  }

  /** Every step keeps the books. */
  lemma {:induction false} StepCounted(us: seq<Table>, total: nat, e: Env, limit: Option<nat>, P: Plan, F: set<Table>, s: Segment, a: Action)
    requires Counted(us, total, s) && Inv(e, P, F, s) && Enabled(e, limit, s, a)
    ensures Counted(us, total, Next(e, limit, s, a))
  {
    match a
    case Pop => PopCounted(us, total, e, s);
    case Reserving(t) => ReserveCounted(us, total, e, P, F, s, t);
    case Arriving(t, id) => ArriveCounted(us, total, e, P, F, s, t, id);
    case Writing(t) => WriteCounted(us, total, e, s, t);
    case Joining(t) => JoinCounted(us, total, s, t);
    case Ending =>
    case Leaving =>
  }

  lemma {:induction false} RunCounted(us: seq<Table>, total: nat, e: Env, limit: Option<nat>, P: Plan, F: set<Table>,
                                      s: Segment, acts: seq<Action>, s': Segment)
    requires Counted(us, total, s) && Inv(e, P, F, s) && Reaches(e, limit, s, acts, s')
    ensures Counted(us, total, s') && Inv(e, P, F, s')
    decreases |acts|
  {
    if acts != [] {
      StepCounted(us, total, e, limit, P, F, s, acts[0]);
      StepKeeps(e, limit, P, F, s, acts[0]);
      RunCounted(us, total, e, limit, P, F, Next(e, limit, s, acts[0]), acts[1..], s');
    }
  }

  /** Conservation over every schedule: at each step boundary the processed units
      and the units left in the plan add up to the units at the start, no plan
      entry is empty, and the logical step counter has not underflowed. */
  lemma {:induction false} WorkIsConserved(us: seq<Table>, e: Env, limit: Option<nat>, P: Plan, F: set<Table>, acts: seq<Action>, s: Segment)
    requires 0 < e.target && Wf(P) && Covers(us, P)
    requires Reaches(e, limit, Begin(P, F), acts, s)
    ensures !s.busy ==> s.processed + UnitsLeft(us, s.plan) == UnitsLeft(us, P)
    ensures forall id :: id in s.plan ==> s.plan[id] != []
    ensures 0 <= s.logical
  {
    BeginInv(e, P, F);
    BeginCounted(us, P, F);
    RunCounted(us, UnitsLeft(us, P), e, limit, P, F, Begin(P, F), acts, s);
  }
}
