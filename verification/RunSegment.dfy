/** One run segment (`run_pipeline`) as a step system.  Each action below is one
    atomic piece of the source: a pop by the outer loop, a reservation under the
    work-state lock, the completion of a read, a task's writes, the collection of
    its result, the end of an outer iteration, and leaving the outer loop.  Tasks
    of different tables interleave freely and reads complete in any order. */
module RunSegment {
  import opened Prelude
  import opened WorkPlan
  import opened Records
  import opened Reader
  import opened TableLane

  datatype Status = Running | Paused | Completed

  datatype Segment = Segment(
    plan: Plan,
    finished: set<Table>,
    tasks: map<Table, Task>,
    out: map<Table, seq<seq<nat>>>,  // coalesced reads written to the sink, per table
    status: Status,
    busy: bool,                      // inside an outer iteration
    last: Option<nat>,               // batch ID of the latest outer iteration
    outer: nat,                      // outer_steps_processed
    logical: int,                    // logical_steps_consumed
    processed: nat,                  // batches_processed
    stepCount: nat)                  // step_batch_count

  datatype Action =
    | Pop
    | Reserving(t: Table)
    | Arriving(t: Table, id: nat)
    | Writing(t: Table)
    | Joining(t: Table)
    | Ending
    | Leaving

  function Begin(plan: Plan, finished: set<Table>): Segment {
    Segment(plan, finished, map[], map[], Running, false, None, 0, 0, 0, 0)
  }

  /** The highest batch ID that belongs to the checkpoint interval: the one the
      budget's last step has among the ascending keys. */
  function Bound(keys: set<nat>, limit: Option<nat>): Option<nat> {
    if limit.None? then None else
      var ks, n := Sorted(keys), if limit.value == 0 then 0 else limit.value - 1;
      if n < |ks| then Some(ks[n]) else None
  }

  function Boundary(plan: Plan, limit: Option<nat>): Option<nat> {
    Bound(plan.Keys, limit)
  }

  function Out(out: map<Table, seq<seq<nat>>>, t: Table): seq<seq<nat>> {
    if t in out then out[t] else []
  }

  predicate LimitReached(limit: Option<nat>, s: Segment) {
    limit.Some? && limit.value <= s.outer
  }

  predicate HasNext(e: Env, s: Segment) {
    s.plan.Keys != {} && Within(e.max, Least(s.plan.Keys))
  }

  predicate Enabled(e: Env, limit: Option<nat>, s: Segment, a: Action) {
    s.status == Running &&
    match a
    case Pop => !s.busy && !LimitReached(limit, s) && HasNext(e, s)
    case Reserving(t) => t in s.tasks && WantsReserve(e, s.tasks[t])
    case Arriving(t, id) =>
      t in s.tasks && s.tasks[t].stage.Reading? && id in s.tasks[t].inFlight && !WantsReserve(e, s.tasks[t])
    case Writing(t) => t in s.tasks && s.tasks[t].stage.Read?
    case Joining(t) => t in s.tasks && s.tasks[t].stage.Written?
    case Ending => s.busy && s.tasks == map[]
    case Leaving => !s.busy && (LimitReached(limit, s) || !HasNext(e, s))
  }

  function Popped(s: Segment): Segment
    requires s.plan.Keys != {}
  {
    var id := Least(s.plan.Keys);
    var active := Active(s.plan[id], s.finished);
    var s' := s.(plan := s.plan - {id}, last := Some(id),
                 processed := s.processed + (|s.plan[id]| - |active|));
    if active == [] then s'
    else s'.(busy := true, stepCount := 0, tasks := map t | t in active :: NewTask(id))
  }

  function Reserved(e: Env, s: Segment, t: Table): Segment
    requires t in s.tasks
  {
    var k := s.tasks[t];
    match NextId(s.plan, t, k.cursor, e.max)
    case None => s.(tasks := s.tasks[t := k.(canReserve := false)])
    case Some(id) =>
      var plan := Take(s.plan, id, t);
      s.(plan := plan, logical := s.logical + (if id in plan then 0 else 1),
         tasks := s.tasks[t := Reserve(k, id, id !in plan)])
  }

  function Arrived(e: Env, s: Segment, t: Table, id: nat): Segment
    requires t in s.tasks
  {
    var c := Complete(e, t, s.tasks[t], id);
    s.(plan := GiveAll(s.plan, c.back, t), logical := s.logical - c.flagged, tasks := s.tasks[t := c.task])
  }

  /** A task without any record batch reports its table finished; otherwise its
      coalesced read is written. */
  function Wrote(e: Env, s: Segment, t: Table): Segment
    requires t in s.tasks && s.tasks[t].stage.Read?
  {
    var k := s.tasks[t];
    if RowsOf(e, t, k.drained) == [] then s.(tasks := s.tasks[t := k.(stage := Written(true))])
    else s.(out := s.out[t := Out(s.out, t) + [k.drained]],
            tasks := s.tasks[t := k.(stage := Written(k.stage.ended))])
  }

  function Joined(s: Segment, t: Table): Segment
    requires t in s.tasks && s.tasks[t].stage.Written?
  {
    s.(stepCount := s.stepCount + s.tasks[t].consumed,
       finished := if s.tasks[t].stage.ended then s.finished + {t} else s.finished,
       tasks := s.tasks - {t})
  }

  function Ended(s: Segment): Segment {
    s.(busy := false, outer := s.outer + 1, logical := s.logical + 1,
       processed := s.processed + s.stepCount, stepCount := 0)
  }

  function Left(e: Env, limit: Option<nat>, s: Segment): Segment {
    s.(status := if LimitReached(limit, s) || e.max.Some? then Paused else Completed)
  }

  function Next(e: Env, limit: Option<nat>, s: Segment, a: Action): Segment
    requires Enabled(e, limit, s, a)
  {
    match a
    case Pop => Popped(s)
    case Reserving(t) => Reserved(e, s, t)
    case Arriving(t, id) => Arrived(e, s, t, id)
    case Writing(t) => Wrote(e, s, t)
    case Joining(t) => Joined(s, t)
    case Ending => Ended(s)
    case Leaving => Left(e, limit, s)
  }

  /** `acts` is a possible schedule from `s` to `s'`. */
  ghost predicate Reaches(e: Env, limit: Option<nat>, s: Segment, acts: seq<Action>, s': Segment)
    decreases |acts|
  {
    if acts == [] then s == s'
    else Enabled(e, limit, s, acts[0]) && Reaches(e, limit, Next(e, limit, s, acts[0]), acts[1..], s')
  }

  /** The pending batch IDs of a table inside the checkpoint interval. */
  function ScopeIds(e: Env, plan: Plan, t: Table): set<nat> {
    set id | id in Ids(plan, t) && Within(e.max, id)
  }

  function Scope(e: Env, plan: Plan, t: Table): seq<nat> {
    Sorted(ScopeIds(e, plan, t))
  }

  function LaneOf(e: Env, s: Segment, t: Table): Lane {
    Lane(Scope(e, s.plan, t), Out(s.out, t),
              if t in s.tasks then Some(s.tasks[t]) else None, t in s.finished)
  }
}
