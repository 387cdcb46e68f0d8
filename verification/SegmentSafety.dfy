/** What every step of a run segment keeps, and what a segment has done by the
    time it pauses or completes. */
module SegmentSafety {
  import opened Prelude
  import opened WorkPlan
  import opened Records
  import opened Reader
  import opened TableLane
  import opened RunSegment

  /** A table finished before the segment produces nothing; any other keeps the
      lane invariant with respect to its pending IDs at the start. */
  ghost predicate LaneFine(e: Env, P: Plan, F: set<Table>, t: Table, l: Lane)
    requires 0 < e.target
  {
    if t in F then l.finished && l.task.None? && l.out == []
    else LaneOk(e, t, Scope(e, P, t), l)
  }

  ghost predicate Lanes(e: Env, P: Plan, F: set<Table>, s: Segment)
    requires 0 < e.target
  {
    forall t :: LaneFine(e, P, F, t, LaneOf(e, s, t))
  }

  /** The plan keys the outer loop has moved past. */
  function Visited(P: Plan, last: Option<nat>): set<nat> {
    set k | k in P && last.Some? && k <= last.value
  }

  /** Entries beyond the boundary are as they were. */
  ghost predicate BeyondKept(e: Env, P: Plan, plan: Plan) {
    && plan.Keys <= P.Keys
    && forall id :: id in P && !Within(e.max, id) ==> id in plan && plan[id] == P[id]
  }

  ghost predicate After(last: Option<nat>, plan: Plan) {
    last.Some? ==> forall id :: id in plan ==> last.value < id
  }

  ghost predicate TaskAfter(last: Option<nat>, k: Task) {
    last.Some? && forall x :: x in k.scheduled ==> last.value <= x
  }

  ghost predicate Shape(e: Env, P: Plan, s: Segment) {
    && Wf(s.plan)
    && BeyondKept(e, P, s.plan)
    && After(s.last, s.plan)
    && (forall t :: t in s.tasks ==> TaskAfter(s.last, s.tasks[t]))
    && (s.tasks != map[] ==> s.busy)
    && s.outer + (if s.busy then 1 else 0) <= |Visited(P, s.last)|
    && (s.last.Some? ==> Within(e.max, s.last.value))
  }

  ghost predicate Inv(e: Env, P: Plan, F: set<Table>, s: Segment) {
    0 < e.target && Wf(P) && Lanes(e, P, F, s) && Shape(e, P, s)
  }

  lemma {:induction false} BeginInv(e: Env, P: Plan, F: set<Table>)
    requires 0 < e.target && Wf(P)
    ensures Inv(e, P, F, Begin(P, F))
  {
    var s := Begin(P, F);
    forall t
      ensures LaneFine(e, P, F, t, LaneOf(e, s, t))
    {
      SortedIs(ScopeIds(e, P, t));
      LaneInit(e, t, Scope(e, P, t));
    }
    assert Visited(P, None) == {};
  }

  // ---------------------------------------------------------------------
  // Pop
  // ---------------------------------------------------------------------

  lemma {:induction false} PopLane(e: Env, P: Plan, F: set<Table>, s: Segment, t: Table)
    requires Inv(e, P, F, s) && !s.busy && HasNext(e, s)
    ensures LaneFine(e, P, F, t, LaneOf(e, Popped(s), t))
  {
    var id := Least(s.plan.Keys);
    var l := LaneOf(e, s, t);
    assert LaneFine(e, P, F, t, l);
    assert s.tasks == map[];
    ActiveElems(s.plan[id], s.finished);
    var S := ScopeIds(e, s.plan, t);
    assert ScopeIds(e, s.plan - {id}, t) == S - {id};
    if t in Active(s.plan[id], s.finished) {
      assert id in S && forall x :: x in S ==> id <= x;
      SortedCons(S, id);
      LanePop(e, t, Scope(e, P, t), l, id, Sorted(S - {id}));
      assert Popped(s).tasks[t] == NewTask(id);
    } else if t in s.plan[id] {
      assert t in s.finished;
    } else {
      assert S - {id} == S;
    }
  }

  lemma {:induction false} PopKeeps(e: Env, P: Plan, F: set<Table>, s: Segment)
    requires Inv(e, P, F, s) && !s.busy && HasNext(e, s)
    ensures Inv(e, P, F, Popped(s))
  {
    hide LaneFine;
    hide LaneOf;
    forall t
      ensures LaneFine(e, P, F, t, LaneOf(e, Popped(s), t))
    {
      PopLane(e, P, F, s, t);
    }
    PopShape(e, P, s);
  }

  lemma {:induction false} PopShape(e: Env, P: Plan, s: Segment)
    requires Shape(e, P, s) && !s.busy && HasNext(e, s)
    ensures Shape(e, P, Popped(s))
  {
    var id := Least(s.plan.Keys);
    var v := Visited(P, s.last) + {id};
    assert id !in Visited(P, s.last);
    SubsetCard(v, Visited(P, Some(id)));
    assert s.tasks == map[];
  }

  // ---------------------------------------------------------------------
  // Steps of one table's task
  // ---------------------------------------------------------------------

  /** A step that touches only table `t` keeps every other lane. */
  lemma {:induction false} OthersKeep(e: Env, P: Plan, F: set<Table>, s: Segment, s': Segment, t: Table)
    requires 0 < e.target && Lanes(e, P, F, s)
    requires forall u :: u != t ==> Ids(s'.plan, u) == Ids(s.plan, u)
    requires forall u :: u != t ==> Out(s'.out, u) == Out(s.out, u)
    requires forall u :: u != t ==> (u in s'.tasks <==> u in s.tasks) && (u in s.tasks ==> s'.tasks[u] == s.tasks[u])
    requires forall u :: u != t ==> (u in s'.finished <==> u in s.finished)
    requires LaneFine(e, P, F, t, LaneOf(e, s', t))
    ensures Lanes(e, P, F, s')
  {
    forall u
      ensures LaneFine(e, P, F, u, LaneOf(e, s', u))
    {
      if u != t {
        assert Ids(s'.plan, u) == Ids(s.plan, u);
        assert ScopeIds(e, s'.plan, u) == ScopeIds(e, s.plan, u);
        assert LaneOf(e, s', u) == LaneOf(e, s, u);
      }
    }
  }

  /** A running task's table was not finished at the start, and its lane holds. */
  lemma {:induction false} TaskLane(e: Env, P: Plan, F: set<Table>, s: Segment, t: Table)
    requires Inv(e, P, F, s) && t in s.tasks
    ensures t !in F && LaneOk(e, t, Scope(e, P, t), LaneOf(e, s, t))
    ensures LaneOf(e, s, t).task == Some(s.tasks[t])
  {
    assert LaneFine(e, P, F, t, LaneOf(e, s, t));
  }

  /** Reservations lie in the checkpoint interval of the starting plan, and ahead
      of them lies exactly what is still pending there. */
  lemma {:induction false} Reservations(e: Env, P: Plan, F: set<Table>, s: Segment, t: Table)
    requires Inv(e, P, F, s) && t in s.tasks && s.tasks[t].stage.Reading?
    ensures Elems(s.tasks[t].scheduled) <= ScopeIds(e, P, t)
    ensures Ascending(s.tasks[t].scheduled + Scope(e, s.plan, t)) && Ascending(s.tasks[t].scheduled)
    ensures forall x, y :: x in s.tasks[t].scheduled && y in ScopeIds(e, s.plan, t) ==> x < y
  {
    TaskLane(e, P, F, s, t);
    var l, k := LaneOf(e, s, t), s.tasks[t];
    var ids := Scope(e, P, t);
    assert ReadingOk(e, t, ids, l.out, l.rest, k);
    SortedIs(ScopeIds(e, P, t));
    SortedIs(ScopeIds(e, s.plan, t));
    AheadAscending(ids, l.out, k.drained, k.scheduled, l.rest);
    forall x | x in k.scheduled
      ensures x in ScopeIds(e, P, t)
    {
      assert x in k.scheduled + l.rest;
      assert x in k.drained + (k.scheduled + l.rest);
      assert x in ids;
      assert x in Elems(ids);
    }
    assert forall y :: y in ScopeIds(e, s.plan, t) ==> y in Elems(l.rest) && y in l.rest;
  }

  lemma {:induction false} NextIsLeast(e: Env, P: Plan, F: set<Table>, s: Segment, t: Table)
    requires Inv(e, P, F, s) && t in s.tasks && WantsReserve(e, s.tasks[t])
    ensures Candidates(s.plan, t, s.tasks[t].cursor, e.max) == ScopeIds(e, s.plan, t)
  {
    TaskLane(e, P, F, s, t);
    Reservations(e, P, F, s, t);
    var k := s.tasks[t];
    assert k.cursor in k.scheduled;
  }

  lemma {:induction false} ReserveLane(e: Env, P: Plan, F: set<Table>, s: Segment, t: Table)
    requires Inv(e, P, F, s) && t in s.tasks && WantsReserve(e, s.tasks[t])
    ensures LaneFine(e, P, F, t, LaneOf(e, Reserved(e, s, t), t))
  {
    var k, s', S := s.tasks[t], Reserved(e, s, t), ScopeIds(e, s.plan, t);
    var l, ids := LaneOf(e, s, t), Scope(e, P, t);
    TaskLane(e, P, F, s, t);
    NextIsLeast(e, P, F, s, t);
    var n := NextId(s.plan, t, k.cursor, e.max);
    if n.None? {
      LaneNoReserve(e, t, ids, l);
      assert LaneOf(e, s', t) == l.(task := Some(k.(canReserve := false)));
    } else {
      var id := n.value;
      assert ScopeIds(e, s'.plan, t) == S - {id} by {
        TakeEffect(s.plan, id, t);
      }
      SortedCons(S, id);
      LaneReserve(e, t, ids, l, id, Sorted(S - {id}), id !in s'.plan);
      assert LaneOf(e, s', t) == l.(rest := Sorted(S - {id}), task := Some(Reserve(k, id, id !in s'.plan)));
    }
  }

  lemma {:induction false} ReserveKeeps(e: Env, P: Plan, F: set<Table>, s: Segment, t: Table)
    requires Inv(e, P, F, s) && t in s.tasks && WantsReserve(e, s.tasks[t])
    ensures Inv(e, P, F, Reserved(e, s, t))
  {
    hide LaneFine;
    hide LaneOf;
    ReserveLane(e, P, F, s, t);
    ReserveShape(e, P, s, t);
    ReserveOthers(e, s, t);
    OthersKeep(e, P, F, s, Reserved(e, s, t), t);
  }

  lemma {:induction false} ReserveOthers(e: Env, s: Segment, t: Table)
    requires Wf(s.plan) && t in s.tasks
    ensures forall u :: u != t ==> Ids(Reserved(e, s, t).plan, u) == Ids(s.plan, u)
  {
    var n := NextId(s.plan, t, s.tasks[t].cursor, e.max);
    if n.Some? {
      TakeEffect(s.plan, n.value, t);
    }
  }

  lemma {:induction false} ReserveShape(e: Env, P: Plan, s: Segment, t: Table)
    requires Shape(e, P, s) && t in s.tasks
    ensures Shape(e, P, Reserved(e, s, t))
  {
    var k, s' := s.tasks[t], Reserved(e, s, t);
    var n := NextId(s.plan, t, k.cursor, e.max);
    assert TaskAfter(s.last, k);
    if n.Some? {
      TakeEffect(s.plan, n.value, t);
      assert s.last.value < n.value;
      assert TaskAfter(s.last, s'.tasks[t]);
      forall id | id in P && !Within(e.max, id)
        ensures id in s'.plan && s'.plan[id] == P[id]
      {
        assert id != n.value;
      }
    }
  }

  lemma {:induction false} ArriveLane(e: Env, P: Plan, F: set<Table>, s: Segment, t: Table, id: nat, c: Completion)
    requires Inv(e, P, F, s) && t in s.tasks && s.tasks[t].stage.Reading?
    requires id in s.tasks[t].inFlight && !WantsReserve(e, s.tasks[t])
    requires c == Complete(e, t, s.tasks[t], id)
    ensures Wf(GiveAll(s.plan, c.back, t))
    ensures LaneFine(e, P, F, t, LaneOf(e, Arrived(e, s, t, id), t))
    ensures Elems(c.back) <= ScopeIds(e, P, t)
    ensures forall x :: x in c.back ==> x <= U64_MAX && s.last.Some? && s.last.value < x
  {
    var s' := Arrived(e, s, t, id);
    var l, S := LaneOf(e, s, t), ScopeIds(e, s.plan, t);
    TaskLane(e, P, F, s, t);
    LaneComplete(e, t, Scope(e, P, t), l, id);
    BackInScope(e, P, F, s, t, c.back);
    forall x | x in c.back
      ensures x <= U64_MAX
    {
      assert x in Elems(c.back);
    }
    assert Wf(s'.plan) && ScopeIds(e, s'.plan, t) == Elems(c.back) + S by {
      GiveAllEffect(s.plan, c.back, t);
      ScopeGrows(e, P, s.plan, s'.plan, t, Elems(c.back));
    }
    SortedPrepend(c.back, S);
    assert LaneOf(e, s', t) == l.(rest := c.back + l.rest, task := Some(c.task));
  }

  lemma {:induction false} ScopeGrows(e: Env, P: Plan, plan: Plan, plan': Plan, t: Table, back: set<nat>)
    requires Ids(plan', t) == Ids(plan, t) + back && back <= ScopeIds(e, P, t)
    ensures ScopeIds(e, plan', t) == back + ScopeIds(e, plan, t)
  {
  }

  lemma {:induction false} ArriveKeeps(e: Env, P: Plan, F: set<Table>, s: Segment, t: Table, id: nat)
    requires Inv(e, P, F, s) && t in s.tasks && s.tasks[t].stage.Reading?
    requires id in s.tasks[t].inFlight && !WantsReserve(e, s.tasks[t])
    ensures Inv(e, P, F, Arrived(e, s, t, id))
  {
    var c, s' := Complete(e, t, s.tasks[t], id), Arrived(e, s, t, id);
    ArriveLane(e, P, F, s, t, id, c);
    ArriveShape(e, P, s, s', t, id, c.back);
    assert forall u :: u != t ==> Ids(s'.plan, u) == Ids(s.plan, u) by {
      GiveAllEffect(s.plan, c.back, t);
    }
    OthersKeep(e, P, F, s, s', t);
  }

  /** What a task hands back lies in the interval, after the current step. */
  lemma {:induction false} BackInScope(e: Env, P: Plan, F: set<Table>, s: Segment, t: Table, back: seq<nat>)
    requires Inv(e, P, F, s) && t in s.tasks && s.tasks[t].stage.Reading?
    requires |back| < |s.tasks[t].scheduled| && back == s.tasks[t].scheduled[|s.tasks[t].scheduled| - |back|..]
    ensures Elems(back) <= ScopeIds(e, P, t)
    ensures Ascending(back + Scope(e, s.plan, t))
    ensures forall x :: x in back ==> s.last.Some? && s.last.value < x
  {
    Reservations(e, P, F, s, t);
    var k := s.tasks[t];
    var n := |k.scheduled| - |back|;
    assert k.scheduled + Scope(e, s.plan, t) == k.scheduled[..n] + (back + Scope(e, s.plan, t));
    AscendingParts(k.scheduled[..n], back + Scope(e, s.plan, t));
    forall x | x in back
      ensures x in ScopeIds(e, P, t) && s.last.Some? && s.last.value < x
    {
      assert x in k.scheduled && x in Elems(k.scheduled);
      assert k.scheduled[0] in k.scheduled[..n] && x in back + Scope(e, s.plan, t);
      assert TaskAfter(s.last, k) && k.scheduled[0] in k.scheduled;
    }
  }

  lemma {:induction false} ArriveShape(e: Env, P: Plan, s: Segment, s': Segment, t: Table, id: nat, back: seq<nat>)
    requires Shape(e, P, s) && t in s.tasks && s' == Arrived(e, s, t, id)
    requires back == Complete(e, t, s.tasks[t], id).back
    requires Elems(back) <= ScopeIds(e, P, t)
    requires forall x :: x in back ==> x <= U64_MAX && s.last.Some? && s.last.value < x
    ensures Shape(e, P, s')
  {
    GiveAllEffect(s.plan, back, t);
    assert TaskAfter(s.last, s.tasks[t]);
    CompleteScheduled(e, t, s.tasks[t], id);
    assert TaskAfter(s.last, s'.tasks[t]);
    forall id | id in P && !Within(e.max, id)
      ensures id in s'.plan && s'.plan[id] == P[id]
    {
      assert id !in Elems(back);
    }
  }

  lemma {:induction false} WriteKeeps(e: Env, P: Plan, F: set<Table>, s: Segment, t: Table)
    requires Inv(e, P, F, s) && t in s.tasks && s.tasks[t].stage.Read?
    ensures Inv(e, P, F, Wrote(e, s, t))
  {
    var k, s' := s.tasks[t], Wrote(e, s, t);
    var l := LaneOf(e, s, t);
    TaskLane(e, P, F, s, t);
    LaneWrite(e, t, Scope(e, P, t), l, k.stage.ended);
    assert LaneOf(e, s', t) == LaneWritten(e, t, l, k, k.stage.ended);
    hide LaneOk;
    OthersKeep(e, P, F, s, s', t);
    WriteShape(e, P, s, t);
  }

  lemma {:induction false} WriteShape(e: Env, P: Plan, s: Segment, t: Table)
    requires Shape(e, P, s) && t in s.tasks && s.tasks[t].stage.Read?
    ensures Shape(e, P, Wrote(e, s, t))
  {
    assert TaskAfter(s.last, s.tasks[t]);
    assert TaskAfter(s.last, Wrote(e, s, t).tasks[t]);
  }

  lemma {:induction false} JoinKeeps(e: Env, P: Plan, F: set<Table>, s: Segment, t: Table)
    requires Inv(e, P, F, s) && t in s.tasks && s.tasks[t].stage.Written?
    ensures Inv(e, P, F, Joined(s, t))
  {
    var s' := Joined(s, t);
    TaskLane(e, P, F, s, t);
    OthersKeep(e, P, F, s, s', t);
  }

  /** Every step keeps the invariant. */
  lemma {:induction false} StepKeeps(e: Env, limit: Option<nat>, P: Plan, F: set<Table>, s: Segment, a: Action)
    requires Inv(e, P, F, s) && Enabled(e, limit, s, a)
    ensures Inv(e, P, F, Next(e, limit, s, a))
  {
    match a
    case Pop => PopKeeps(e, P, F, s);
    case Reserving(t) => ReserveKeeps(e, P, F, s, t);
    case Arriving(t, id) => ArriveKeeps(e, P, F, s, t, id);
    case Writing(t) => WriteKeeps(e, P, F, s, t);
    case Joining(t) => JoinKeeps(e, P, F, s, t);
    case Ending =>
      assert forall t :: LaneOf(e, Ended(s), t) == LaneOf(e, s, t);
    case Leaving =>
      assert forall t :: LaneOf(e, Left(e, limit, s), t) == LaneOf(e, s, t);
  }

  // ---------------------------------------------------------------------
  // Reads in flight
  // ---------------------------------------------------------------------

  ghost predicate FewReads(s: Segment) {
    forall t :: t in s.tasks ==> |s.tasks[t].inFlight| <= 2
  }

  lemma {:induction false} DrainReads(e: Env, t: Table, k: Task)
    ensures Drain(e, t, k).task.inFlight == k.inFlight
    decreases |k.scheduled|
  {
    if k.scheduled != [] && k.scheduled[0] in k.completed && e.read(t, k.scheduled[0]).Some? {
      DrainReads(e, t, TakeOver(e, t, k));
    }
  }

  lemma {:induction false} CompleteReads(e: Env, t: Table, k: Task, id: nat)
    requires |k.inFlight| <= 2
    ensures |Complete(e, t, k, id).task.inFlight| <= 2
  {
    DrainReads(e, t, Arrive(k, id));
    SubsetCard(k.inFlight - {id}, k.inFlight);
    hide Drain;
  }

  lemma {:induction false} StepFewReads(e: Env, limit: Option<nat>, s: Segment, a: Action)
    requires FewReads(s) && Enabled(e, limit, s, a)
    ensures FewReads(Next(e, limit, s, a))
  {
    hide Complete, GiveAll, NextId, Take, HasNext, LimitReached, RowsOf;
    if a.Arriving? {
      CompleteReads(e, a.t, s.tasks[a.t], a.id);
    }
  }

  /** In every state a schedule can reach, no table has more than two reads in flight. */
  lemma {:induction false} ReadsBounded(e: Env, limit: Option<nat>, s: Segment, acts: seq<Action>, s': Segment)
    requires FewReads(s) && Reaches(e, limit, s, acts, s')
    ensures FewReads(s')
    decreases |acts|
  {
    hide FewReads, Enabled, Next;
    if acts != [] {
      StepFewReads(e, limit, s, acts[0]);
      ReadsBounded(e, limit, Next(e, limit, s, acts[0]), acts[1..], s');
    }
  }

  lemma {:induction false} TwoReads(e: Env, limit: Option<nat>, P: Plan, F: set<Table>, acts: seq<Action>, s: Segment, t: Table)
    requires Reaches(e, limit, Begin(P, F), acts, s) && t in s.tasks
    ensures |s.tasks[t].inFlight| <= 2
  {
    ReadsBounded(e, limit, Begin(P, F), acts, s);
  }
}
