/** One table's view of a run segment and the invariant every step keeps on it. */
module TableLane {
  import opened Prelude
  import opened WorkPlan
  import opened Records
  import opened Reader

  /** The part of the shared state that concerns one table: the ascending list of
      its pending batch IDs inside the checkpoint boundary, the coalesced reads
      written so far, its running task if any, and whether it is marked finished. */
  datatype Lane = Lane(rest: seq<nat>, out: seq<seq<nat>>, task: Option<Task>, finished: bool)

  /** `out` was read, `todo` is left, and grouping what is left continues `out` to
      the grouping of all IDs at once. */
  ghost predicate Cut(e: Env, t: Table, ids: seq<nat>, out: seq<seq<nat>>, todo: seq<nat>)
    requires 0 < e.target
  {
    && ids == Flat(out) + todo
    && Present(e, t, Flat(out))
    && out + Groups(e, t, todo) == Groups(e, t, ids)
  }

  /** Likewise, and every read in `out` was written. */
  ghost predicate Upto(e: Env, t: Table, ids: seq<nat>, out: seq<seq<nat>>, todo: seq<nat>)
    requires 0 < e.target
  {
    Cut(e, t, ids, out, todo) && !Void(e, t, out)
  }

  /** Everything before a missing batch or a void read was written. */
  ghost predicate Over(e: Env, t: Table, ids: seq<nat>, out: seq<seq<nat>>)
    requires 0 < e.target
  {
    out == Kept(e, t, Groups(e, t, ids)) && (!Present(e, t, ids) || Void(e, t, Groups(e, t, ids)))
  }

  /** With `drained` taken over and `rows` rows counted, the span prescribed for
      `drained + ahead` is reached by continuing with `ahead`. */
  ghost predicate Tracks(e: Env, t: Table, drained: seq<nat>, ahead: seq<nat>, rows: nat) {
    && rows < e.target
    && Present(e, t, drained)
    && SpanOf(e, t, drained + ahead, 0) == Shift(|drained|, SpanOf(e, t, ahead, rows))
  }

  function Shift(d: nat, s: Span): Span {
    Span(d + s.taken, s.missing)
  }

  /** Every reservation is either being read or has been read ahead of its turn. */
  ghost predicate Booked(k: Task) {
    && Ascending(k.scheduled)
    && k.inFlight + k.completed == Elems(k.scheduled) && k.inFlight !! k.completed
    && k.removed.Keys == Elems(k.scheduled)
  }

  function Delivery(out: seq<seq<nat>>, drained: seq<nat>): seq<seq<nat>> {
    if drained == [] then out else out + [drained]
  }

  ghost predicate ReadingOk(e: Env, t: Table, ids: seq<nat>, out: seq<seq<nat>>, rest: seq<nat>, k: Task)
    requires 0 < e.target
  {
    var ahead := k.scheduled + rest;
    && Upto(e, t, ids, out, k.drained + ahead)
    && Tracks(e, t, k.drained, ahead, k.rows)
    && Booked(k)
    && k.scheduled != [] && k.scheduled[0] in k.inFlight
    && k.cursor == k.scheduled[|k.scheduled| - 1]
    && (k.canReserve || rest == [])
  }

  ghost predicate ReadOk(e: Env, t: Table, ids: seq<nat>, out: seq<seq<nat>>, rest: seq<nat>, drained: seq<nat>, ended: bool)
    requires 0 < e.target
  {
    && Present(e, t, drained) && !Void(e, t, out)
    && if ended then Delivery(out, drained) == Groups(e, t, ids) && !Present(e, t, ids)
       else
         && drained != [] && Cut(e, t, ids, out + [drained], rest)
         && (RowsOf(e, t, drained) == [] ==> rest == [])
  }

  ghost predicate TaskOk(e: Env, t: Table, ids: seq<nat>, l: Lane, k: Task)
    requires 0 < e.target
  {
    match k.stage
    case Reading => ReadingOk(e, t, ids, l.out, l.rest, k)
    case Read(ended) => ReadOk(e, t, ids, l.out, l.rest, k.drained, ended)
    case Written(ended) =>
      if ended then Over(e, t, ids, l.out) else Upto(e, t, ids, l.out, l.rest)
  }

  /** The invariant of a table that was not finished when the segment began and
      whose rest IDs were then `ids`. */
  ghost predicate LaneOk(e: Env, t: Table, ids: seq<nat>, l: Lane)
    requires 0 < e.target
  {
    && Ascending(ids)
    && match l.task
       case Some(k) => !l.finished && TaskOk(e, t, ids, l, k)
       case None =>
         if l.finished then Over(e, t, ids, l.out) else Upto(e, t, ids, l.out, l.rest)
  }

  lemma {:induction false} LaneInit(e: Env, t: Table, ids: seq<nat>)
    requires 0 < e.target && Ascending(ids)
    ensures LaneOk(e, t, ids, Lane(ids, [], None, false))
  {
    assert [] + Groups(e, t, ids) == Groups(e, t, ids);
  }

  /** A table is finished, or everything pending was delivered: either way its
      output is the grouping of all its IDs, without a void read. */
  lemma {:induction false} LaneDone(e: Env, t: Table, ids: seq<nat>, l: Lane)
    requires 0 < e.target && LaneOk(e, t, ids, l) && l.task.None?
    requires l.finished || l.rest == []
    ensures l.out == Kept(e, t, Groups(e, t, ids))
    ensures l.finished <==> !Present(e, t, ids) || Void(e, t, Groups(e, t, ids))
  {
  }

  // ---------------------------------------------------------------------
  // Preservation, step by step.
  // ---------------------------------------------------------------------

  /** The outer loop pops the least pending ID and starts the table's task. */
  lemma {:induction false} LanePop(e: Env, t: Table, ids: seq<nat>, l: Lane, id: nat, rest: seq<nat>)
    requires 0 < e.target && LaneOk(e, t, ids, l) && l.task.None? && !l.finished
    requires l.rest == [id] + rest
    ensures LaneOk(e, t, ids, l.(rest := rest, task := Some(NewTask(id))))
  {
    assert [] + l.rest == l.rest;
    assert Elems([id]) == {id};
  }

  /** A reservation takes the next pending ID. */
  lemma {:induction false} LaneReserve(e: Env, t: Table, ids: seq<nat>, l: Lane, id: nat, rest: seq<nat>, removedStep: bool)
    requires 0 < e.target && LaneOk(e, t, ids, l) && l.task.Some?
    requires WantsReserve(e, l.task.value)
    requires l.rest == [id] + rest
    ensures LaneOk(e, t, ids, l.(rest := rest, task := Some(Reserve(l.task.value, id, removedStep))))
    ensures id !in l.task.value.scheduled
  {
    ReadingReserve(e, t, ids, l.out, rest, l.task.value, id, removedStep);
  }

  lemma {:induction false} ReadingReserve(e: Env, t: Table, ids: seq<nat>, out: seq<seq<nat>>, rest: seq<nat>, k: Task, id: nat, removedStep: bool)
    requires 0 < e.target && Ascending(ids) && ReadingOk(e, t, ids, out, [id] + rest, k) && k.canReserve
    ensures ReadingOk(e, t, ids, out, rest, Reserve(k, id, removedStep))
    ensures id !in k.scheduled
  {
    assert k.scheduled + ([id] + rest) == (k.scheduled + [id]) + rest;
    BookedReserve(ids, out, rest, k, id, removedStep);
  }

  /** Reservations ascend and precede what is still pending. */
  lemma {:induction false} AheadAscending(ids: seq<nat>, out: seq<seq<nat>>, drained: seq<nat>, scheduled: seq<nat>, rest: seq<nat>)
    requires Ascending(ids) && ids == Flat(out) + (drained + (scheduled + rest))
    ensures Ascending(scheduled + rest) && Ascending(scheduled) && Ascending(rest)
    ensures forall x, y :: x in scheduled && y in rest ==> x < y
    ensures forall x, y :: x in drained && y in scheduled ==> x < y
  {
    AscendingParts(Flat(out), drained + (scheduled + rest));
    AscendingParts(drained, scheduled + rest);
    AscendingParts(scheduled, rest);
    assert forall y :: y in scheduled ==> y in scheduled + rest;
  }

  lemma {:induction false} BookedReserve(ids: seq<nat>, out: seq<seq<nat>>, rest: seq<nat>, k: Task, id: nat, removedStep: bool)
    requires Ascending(ids) && ids == Flat(out) + (k.drained + (k.scheduled + ([id] + rest)))
    requires Booked(k)
    ensures Booked(Reserve(k, id, removedStep))
    ensures id !in k.scheduled
  {
    var r := k.scheduled + [id];
    assert k.scheduled + ([id] + rest) == r + rest;
    AheadAscending(ids, out, k.drained, r, rest);
    assert Elems(r) == Elems(k.scheduled) + {id};
    assert id !in Elems(k.scheduled) by {
      AscendingParts(k.scheduled, [id]);
      assert id in [id];
    }
  }

  /** When no candidate is left the task stops reserving. */
  lemma {:induction false} LaneNoReserve(e: Env, t: Table, ids: seq<nat>, l: Lane)
    requires 0 < e.target && LaneOk(e, t, ids, l) && l.task.Some? && l.task.value.stage.Reading?
    requires l.rest == []
    ensures LaneOk(e, t, ids, l.(task := Some(l.task.value.(canReserve := false))))
  {
  }

  lemma {:induction false} BookedTake(k: Task)
    requires Booked(k) && k.scheduled != [] && k.scheduled[0] in k.completed
    ensures Booked(TakeHead(k))
  {
    TailElems(k.scheduled);
  }

  lemma {:induction false} TracksTake(e: Env, t: Table, drained: seq<nat>, id: nat, ahead: seq<nat>, rows: nat)
    requires Tracks(e, t, drained, [id] + ahead, rows)
    ensures match e.read(t, id)
      case None => SpanOf(e, t, drained + ([id] + ahead), 0) == Span(|drained|, true)
      case Some(b) =>
        && Present(e, t, drained + [id])
        && if e.target <= rows + NumRows(b)
           then SpanOf(e, t, (drained + [id]) + ahead, 0) == Span(|drained| + 1, false)
           else Tracks(e, t, drained + [id], ahead, rows + NumRows(b))
  {
    assert ([id] + ahead)[1..] == ahead;
    assert (drained + [id]) + ahead == drained + ([id] + ahead);
    if e.read(t, id).Some? {
      var n := rows + NumRows(e.read(t, id).value);
      assert SpanOf(e, t, [id] + ahead, rows) == Shift(1, SpanOf(e, t, ahead, n));
      assert e.target <= n ==> SpanOf(e, t, ahead, n) == Span(0, false);
    }
  }

  /** What draining leaves alone. */
  ghost predicate DrainFrame(k: Task, j: Task) {
    && j.inFlight == k.inFlight && j.canReserve == k.canReserve && j.stage == k.stage
    && j.consumed == k.consumed && j.cursor == k.cursor
    && |j.scheduled| <= |k.scheduled|
    && j.scheduled == k.scheduled[|k.scheduled| - |j.scheduled|..]
    && forall x :: x in j.removed ==> x in k.removed && j.removed[x] == k.removed[x]
  }

  ghost predicate DrainGoal(e: Env, t: Table, todo: seq<nat>, rest: seq<nat>, j: Task, end: DrainEnd) {
    && Present(e, t, j.drained)
    && match end
       case Blocked =>
         && todo == j.drained + (j.scheduled + rest)
         && Tracks(e, t, j.drained, j.scheduled + rest, j.rows)
       case Full =>
         && todo == j.drained + (j.scheduled + rest) && j.drained != []
         && SpanOf(e, t, todo, 0) == Span(|j.drained|, false)
       case MissingFirst =>
         j.drained == [] && SpanOf(e, t, todo, 0) == Span(0, true)
       case MissingLater =>
         && |j.drained| <= |todo| && j.drained == todo[..|j.drained|]
         && SpanOf(e, t, todo, 0) == Span(|j.drained|, true)
  }

  lemma {:induction false} DrainFrames(e: Env, t: Table, k: Task)
    ensures var d := Drain(e, t, k);
      var j, end := d.task, d.end;
      DrainFrame(k, j) && (!end.Blocked? ==> |j.scheduled| < |k.scheduled|)
    decreases |k.scheduled|
  {
    if k.scheduled != [] && k.scheduled[0] in k.completed && e.read(t, k.scheduled[0]).Some? {
      var j := TakeOver(e, t, k);
      if j.rows < e.target {
        DrainFrames(e, t, j);
      }
    }
  }

  lemma {:induction false} DrainBooked(e: Env, t: Table, k: Task)
    requires Booked(k)
    ensures var d := Drain(e, t, k);
      var j, end := d.task, d.end;
      Booked(j) && (end.Blocked? && j.scheduled != [] ==> j.scheduled[0] in j.inFlight)
    decreases |k.scheduled|
  {
    if k.scheduled != [] {
      if k.scheduled[0] in k.completed {
        BookedTake(k);
        if e.read(t, k.scheduled[0]).Some? {
          var j := TakeOver(e, t, k);
          assert Booked(j);
          if j.rows < e.target {
            DrainUnfold(e, t, k);
            DrainBooked(e, t, j);
          }
        }
      } else {
        assert k.scheduled[0] in Elems(k.scheduled);
      }
    }
  }

  lemma {:induction false} DrainUnfold(e: Env, t: Table, k: Task)
    requires k.scheduled != [] && k.scheduled[0] in k.completed && e.read(t, k.scheduled[0]).Some?
    requires TakeOver(e, t, k).rows < e.target
    ensures Drain(e, t, k) == Drain(e, t, TakeOver(e, t, k))
  {
  }

  lemma {:induction false} DrainKeeps(e: Env, t: Table, rest: seq<nat>, k: Task, todo: seq<nat>)
    requires Tracks(e, t, k.drained, k.scheduled + rest, k.rows)
    requires todo == k.drained + (k.scheduled + rest)
    ensures var d := Drain(e, t, k);
      var j, end := d.task, d.end; DrainGoal(e, t, todo, rest, j, end)
    decreases |k.scheduled|
  {
    hide SpanOf;
    if k.scheduled != [] && k.scheduled[0] in k.completed {
      var id, ahead := k.scheduled[0], k.scheduled[1..] + rest;
      assert k.scheduled + rest == [id] + ahead;
      assert todo == (k.drained + [id]) + ahead;
      TracksTake(e, t, k.drained, id, ahead, k.rows);
      if e.read(t, id).Some? && TakeOver(e, t, k).rows < e.target {
        DrainUnfold(e, t, k);
        DrainKeeps(e, t, rest, TakeOver(e, t, k), todo);
      }
    }
  }

  /** A read without any record batch did not reach the target, so it was the last. */
  lemma {:induction false} VoidIsLast(e: Env, t: Table, drained: seq<nat>, rest: seq<nat>)
    requires 0 < e.target && SpanOf(e, t, drained + rest, 0) == Span(|drained|, false)
    ensures RowsOf(e, t, drained) == [] ==> rest == []
  {
    SpanIsMinimal(e, t, drained + rest, 0);
    assert (drained + rest)[..|drained|] == drained;
  }

  /** Writing out the span that `SpanOf` prescribes makes progress in the grouping. */
  lemma {:induction false} UptoDeliver(e: Env, t: Table, ids: seq<nat>, out: seq<seq<nat>>, drained: seq<nat>, rest: seq<nat>)
    requires 0 < e.target && Upto(e, t, ids, out, drained + rest) && drained != []
    requires Present(e, t, drained)
    requires SpanOf(e, t, drained + rest, 0) == Span(|drained|, false)
    ensures Cut(e, t, ids, out + [drained], rest)
    ensures RowsOf(e, t, drained) == [] ==> rest == []
  {
    VoidIsLast(e, t, drained, rest);
    FlatSnoc(out, drained);
    assert Flat(out) + (drained + rest) == Flat(out + [drained]) + rest;
    assert (drained + rest)[..|drained|] == drained && (drained + rest)[|drained|..] == rest;
    assert Groups(e, t, drained + rest) == [drained] + Groups(e, t, rest);
    assert out + ([drained] + Groups(e, t, rest)) == (out + [drained]) + Groups(e, t, rest);
  }

  lemma {:induction false} UptoMissing(e: Env, t: Table, ids: seq<nat>, out: seq<seq<nat>>, drained: seq<nat>, todo: seq<nat>)
    requires 0 < e.target && Upto(e, t, ids, out, todo)
    requires |drained| <= |todo| && drained == todo[..|drained|]
    requires SpanOf(e, t, todo, 0) == Span(|drained|, true)
    ensures Delivery(out, drained) == Groups(e, t, ids) && !Present(e, t, ids)
  {
    SpanIsMinimal(e, t, todo, 0);
    assert ids[|Flat(out)| + |drained|] == todo[|drained|];
    assert Groups(e, t, todo) == if drained == [] then [] else [drained];
  }

  lemma {:induction false} EndDry(e: Env, t: Table, ids: seq<nat>, out: seq<seq<nat>>, todo: seq<nat>, j: Task)
    requires 0 < e.target && Upto(e, t, ids, out, todo) && todo != []
    requires DrainGoal(e, t, todo, [], j, Blocked) && j.scheduled == []
    ensures ReadOk(e, t, ids, out, [], j.drained, false)
  {
    assert todo == j.drained + [];
    assert SpanOf(e, t, [], j.rows) == Span(0, false);
    UptoDeliver(e, t, ids, out, j.drained, []);
  }

  lemma {:induction false} EndFull(e: Env, t: Table, ids: seq<nat>, out: seq<seq<nat>>, rest: seq<nat>, todo: seq<nat>, j: Task)
    requires 0 < e.target && Upto(e, t, ids, out, todo)
    requires DrainGoal(e, t, todo, rest, j, Full)
    ensures ReadOk(e, t, ids, out, j.scheduled + rest, j.drained, false)
  {
    UptoDeliver(e, t, ids, out, j.drained, j.scheduled + rest);
  }

  lemma {:induction false} EndMissing(e: Env, t: Table, ids: seq<nat>, out: seq<seq<nat>>, rest: seq<nat>, todo: seq<nat>, j: Task, end: DrainEnd)
    requires 0 < e.target && Upto(e, t, ids, out, todo)
    requires (end.MissingFirst? || end.MissingLater?) && DrainGoal(e, t, todo, rest, j, end)
    ensures forall any :: ReadOk(e, t, ids, out, any, j.drained, true)
  {
    assert todo[..0] == [];
    UptoMissing(e, t, ids, out, j.drained, todo);
  }

  lemma {:induction false} EndBlocked(e: Env, t: Table, ids: seq<nat>, out: seq<seq<nat>>, rest: seq<nat>, todo: seq<nat>, k: Task, j: Task)
    requires 0 < e.target && Upto(e, t, ids, out, todo)
    requires DrainFrame(k, j) && DrainGoal(e, t, todo, rest, j, Blocked)
    requires Booked(j) && j.scheduled != [] && j.scheduled[0] in j.inFlight
    requires k.scheduled != [] && k.cursor == k.scheduled[|k.scheduled| - 1] && (k.canReserve || rest == [])
    ensures ReadingOk(e, t, ids, out, rest, j)
  {
  }

  /** The outcome of a completed read for the task and the pending IDs. */
  ghost predicate CompleteGoal(e: Env, t: Table, ids: seq<nat>, out: seq<seq<nat>>, rest: seq<nat>, k: Task, j: Task, back: seq<nat>)
    requires 0 < e.target
  {
    && |back| < |k.scheduled| && back == k.scheduled[|k.scheduled| - |back|..]
    && match j.stage
       case Reading => back == [] && ReadingOk(e, t, ids, out, rest, j)
       case Read(ended) => ReadOk(e, t, ids, out, back + rest, j.drained, ended)
       case Written(_) => false
  }

  /** The task leaves its loop only after reservations have run dry. */
  lemma {:induction false} LeavesWhenDry(e: Env, rest: seq<nat>, k: Task, id: nat)
    requires k.stage.Reading? && k.rows < e.target && id in k.inFlight && !WantsReserve(e, k)
    requires k.canReserve || rest == []
    requires k.inFlight - {id} == {}
    ensures rest == []
  {
    assert |k.inFlight| == |k.inFlight - {id}| + 1;
  }

  lemma {:induction false} CompleteBlocked(e: Env, t: Table, ids: seq<nat>, out: seq<seq<nat>>, rest: seq<nat>, todo: seq<nat>, k: Task, id: nat, j: Task)
    requires 0 < e.target && ReadingOk(e, t, ids, out, rest, k) && Upto(e, t, ids, out, todo) && todo != []
    requires k.stage.Reading? && id in k.inFlight && !WantsReserve(e, k)
    requires DrainFrame(Arrive(k, id), j) && Booked(j)
    requires DrainGoal(e, t, todo, rest, j, Blocked)
    requires j.scheduled != [] ==> j.scheduled[0] in j.inFlight
    ensures if j.inFlight == {} && j.completed == {} then ReadOk(e, t, ids, out, rest, j.drained, false)
      else ReadingOk(e, t, ids, out, rest, j)
  {
    ElemsEmpty(j.scheduled);
    if j.inFlight == {} && j.completed == {} {
      LeavesWhenDry(e, rest, k, id);
      EndDry(e, t, ids, out, todo, j);
    } else {
      EndBlocked(e, t, ids, out, rest, todo, Arrive(k, id), j);
    }
  }

  lemma {:induction false} BookedArrive(k: Task, id: nat)
    requires Booked(k) && id in k.inFlight
    ensures Booked(Arrive(k, id))
  {
    assert Arrive(k, id).inFlight + Arrive(k, id).completed == k.inFlight + k.completed;
  }

  lemma {:induction false} ReadingComplete(e: Env, t: Table, ids: seq<nat>, out: seq<seq<nat>>, rest: seq<nat>, k: Task, id: nat)
    requires 0 < e.target && ReadingOk(e, t, ids, out, rest, k)
    requires k.stage.Reading? && id in k.inFlight && !WantsReserve(e, k)
    ensures var c := Complete(e, t, k, id);
      CompleteGoal(e, t, ids, out, rest, k, c.task, c.back)
  {
    hide Drain, Proceed, DrainGoal, Booked, Tracks, Upto, CompleteGoal;
    var k1, todo := Arrive(k, id), k.drained + (k.scheduled + rest);
    BookedArrive(k, id);
    DrainKeeps(e, t, rest, k1, todo);
    DrainFrames(e, t, k1);
    hide DrainFrame;
    DrainBooked(e, t, k1);
    var d := Drain(e, t, k1);
    if d.end.Full? {
      FullGoal(e, t, ids, out, rest, todo, k, id, d);
    } else if d.end.Blocked? {
      CompleteBlocked(e, t, ids, out, rest, todo, k, id, d.task);
      BlockedGoal(e, t, ids, out, rest, k, d);
    } else {
      MissingGoal(e, t, ids, out, rest, todo, k, id, d);
    }
  }

  lemma {:induction false} FullGoal(e: Env, t: Table, ids: seq<nat>, out: seq<seq<nat>>, rest: seq<nat>, todo: seq<nat>, k: Task, id: nat, d: Drained)
    requires 0 < e.target && Upto(e, t, ids, out, todo)
    requires d.end.Full? && DrainFrame(Arrive(k, id), d.task) && DrainGoal(e, t, todo, rest, d.task, d.end)
    requires |d.task.scheduled| < |k.scheduled|
    ensures CompleteGoal(e, t, ids, out, rest, k, Proceed(d).task, Proceed(d).back)
  {
    EndFull(e, t, ids, out, rest, todo, d.task);
  }

  lemma {:induction false} MissingGoal(e: Env, t: Table, ids: seq<nat>, out: seq<seq<nat>>, rest: seq<nat>, todo: seq<nat>, k: Task, id: nat, d: Drained)
    requires 0 < e.target && Upto(e, t, ids, out, todo)
    requires d.end.MissingFirst? || d.end.MissingLater?
    requires DrainFrame(Arrive(k, id), d.task) && DrainGoal(e, t, todo, rest, d.task, d.end)
    requires |d.task.scheduled| < |k.scheduled|
    ensures CompleteGoal(e, t, ids, out, rest, k, Proceed(d).task, Proceed(d).back)
  {
    EndMissing(e, t, ids, out, rest, todo, d.task, d.end);
    assert k.scheduled[|k.scheduled|..] == [];
  }

  lemma {:induction false} BlockedGoal(e: Env, t: Table, ids: seq<nat>, out: seq<seq<nat>>, rest: seq<nat>, k: Task, d: Drained)
    requires 0 < e.target && k.stage.Reading? && k.scheduled != []
    requires d.end.Blocked? && d.task.stage.Reading?
    requires if d.task.inFlight == {} && d.task.completed == {} then ReadOk(e, t, ids, out, rest, d.task.drained, false)
      else ReadingOk(e, t, ids, out, rest, d.task)
    ensures CompleteGoal(e, t, ids, out, rest, k, Proceed(d).task, Proceed(d).back)
  {
    assert [] + rest == rest && k.scheduled[|k.scheduled|..] == [];
  }

  /** A read completes: whatever the order of completions, the task ends up with
      the prefix that `SpanOf` prescribes, and the rest is rest again. */
  lemma {:induction false} LaneComplete(e: Env, t: Table, ids: seq<nat>, l: Lane, id: nat)
    requires 0 < e.target && LaneOk(e, t, ids, l) && l.task.Some?
    requires l.task.value.stage.Reading? && id in l.task.value.inFlight && !WantsReserve(e, l.task.value)
    ensures var c := Complete(e, t, l.task.value, id);
      && LaneOk(e, t, ids, l.(rest := c.back + l.rest, task := Some(c.task)))
      && |c.back| < |l.task.value.scheduled|
      && c.back == l.task.value.scheduled[|l.task.value.scheduled| - |c.back|..]
  {
    ReadingComplete(e, t, ids, l.out, l.rest, l.task.value, id);
    hide Complete;
    hide ReadingOk;
    hide ReadOk;
    assert [] + l.rest == l.rest;
  }

  /** Completing a read never adds to what is scheduled. */
  lemma {:induction false} CompleteScheduled(e: Env, t: Table, k: Task, id: nat)
    ensures forall x :: x in Complete(e, t, k, id).task.scheduled ==> x in k.scheduled
  {
    DrainFrames(e, t, Arrive(k, id));
  }

  /** What the writing step does to the lane: a task without a record batch reports
      its table finished. */
  function LaneWritten(e: Env, t: Table, l: Lane, k: Task, ended: bool): Lane {
    if RowsOf(e, t, k.drained) == [] then l.(task := Some(k.(stage := Written(true))))
    else l.(out := l.out + [k.drained], task := Some(k.(stage := Written(ended))))
  }

  /** The sink receives the coalesced read, or nothing if there was none. */
  lemma {:induction false} LaneWrite(e: Env, t: Table, ids: seq<nat>, l: Lane, ended: bool)
    requires 0 < e.target && LaneOk(e, t, ids, l) && l.task.Some? && l.task.value.stage == Read(ended)
    ensures LaneOk(e, t, ids, LaneWritten(e, t, l, l.task.value, ended))
  {
    var k := l.task.value;
    if k.drained != [] {
      assert (l.out + [k.drained])[..|l.out|] == l.out;
    }
    assert (l.out + [k.drained]) + [] == l.out + [k.drained];
  }

  // ---------------------------------------------------------------------
  // What goes back
  // ---------------------------------------------------------------------

  /** Draining takes the stored reads at the front, and a missing batch off after them. */
  ghost predicate DrainTakes(e: Env, t: Table, k: Task, d: Drained, n: nat) {
    && n <= |k.scheduled| && d.task.drained == k.drained + k.scheduled[..n]
    && Present(e, t, k.scheduled[..n])
    && if d.end.MissingFirst? || d.end.MissingLater? then
         && n < |k.scheduled| && e.read(t, k.scheduled[n]).None?
         && d.task.scheduled == k.scheduled[n + 1..] && (d.end.MissingFirst? <==> d.task.drained == [])
       else d.task.scheduled == k.scheduled[n..]
  }

  lemma {:induction false} DrainPrefix(e: Env, t: Table, k: Task) returns (n: nat)
    ensures DrainTakes(e, t, k, Drain(e, t, k), n)
    decreases |k.scheduled|
  {
    hide DrainTakes;
    if k.scheduled == [] || k.scheduled[0] !in k.completed || e.read(t, k.scheduled[0]).None? {
      n := 0;
      DrainStops(e, t, k);
    } else {
      var j := TakeOver(e, t, k);
      if e.target <= j.rows {
        n := 1;
        DrainFills(e, t, k);
      } else {
        DrainUnfold(e, t, k);
        hide Drain;
        var m := DrainPrefix(e, t, j);
        n := m + 1;
        DrainTakesCons(e, t, k, j, Drain(e, t, j), m);
      }
    }
  }

  lemma {:induction false} DrainStops(e: Env, t: Table, k: Task)
    requires k.scheduled == [] || k.scheduled[0] !in k.completed || e.read(t, k.scheduled[0]).None?
    ensures DrainTakes(e, t, k, Drain(e, t, k), 0)
  {
    assert k.drained + k.scheduled[..0] == k.drained && k.scheduled[0..] == k.scheduled;
  }

  lemma {:induction false} DrainFills(e: Env, t: Table, k: Task)
    requires k.scheduled != [] && k.scheduled[0] in k.completed && e.read(t, k.scheduled[0]).Some?
    requires e.target <= TakeOver(e, t, k).rows
    ensures DrainTakes(e, t, k, Drain(e, t, k), 1)
  {
    assert k.scheduled[..1] == [k.scheduled[0]];
    assert Drain(e, t, k) == Drained(TakeOver(e, t, k), Full);
    hide Drain;
  }

  lemma {:induction false} DrainTakesCons(e: Env, t: Table, k: Task, j: Task, d: Drained, m: nat)
    requires k.scheduled != [] && e.read(t, k.scheduled[0]).Some?
    requires j.drained == k.drained + [k.scheduled[0]] && j.scheduled == k.scheduled[1..]
    requires DrainTakes(e, t, j, d, m)
    ensures DrainTakes(e, t, k, d, m + 1)
  {
    var n := m + 1;
    assert k.scheduled[..n] == [k.scheduled[0]] + j.scheduled[..m];
    assert k.scheduled[n..] == j.scheduled[m..];
    assert forall i :: 0 < i < n ==> k.scheduled[..n][i] == j.scheduled[..m][i - 1];
    assert d.task.drained != [];
  }

  /** The reservations `ids` that had removed their whole step. */
  ghost function Removers(removed: map<nat, bool>, ids: seq<nat>): set<nat> {
    set x | x in ids && x in removed && removed[x]
  }

  lemma {:induction false} FlaggedCounts(removed: map<nat, bool>, ids: seq<nat>)
    requires Ascending(ids)
    ensures Flagged(removed, ids) == |Removers(removed, ids)|
  {
    if ids != [] {
      var id, rest := ids[0], ids[1..];
      FlaggedCounts(removed, rest);
      assert ids == [id] + rest && id !in rest;
      assert Removers(removed, ids) == Removers(removed, rest) + (if id in removed && removed[id] then {id} else {});
    }
  }

  /** What a completed read does to the reservations: the stored ones at the front are
      taken over; a task that stops because it has enough hands back all others, one
      that finds its first batch missing hands back those behind it, and one that finds
      a later batch missing hands back none. */
  ghost predicate HandsBack(e: Env, t: Table, k: Task, c: Completion, n: nat) {
    && n <= |k.scheduled| && c.task.drained == k.drained + k.scheduled[..n]
    && Present(e, t, k.scheduled[..n])
    && match c.task.stage
       case Reading => c.back == [] && c.task.scheduled == k.scheduled[n..]
       case Read(false) => c.back == k.scheduled[n..]
       case Read(true) =>
         && n < |k.scheduled| && e.read(t, k.scheduled[n]).None?
         && c.back == if k.drained == [] && n == 0 then k.scheduled[1..] else []
       case Written(_) => false
  }

  lemma {:induction false} LaneHandsBack(e: Env, t: Table, k: Task, id: nat) returns (n: nat)
    requires k.stage.Reading? && Booked(k) && id in k.inFlight
    ensures HandsBack(e, t, k, Complete(e, t, k, id), n)
    ensures var c := Complete(e, t, k, id); c.flagged == |Removers(k.removed, c.back)|
  {
    hide Drain, Proceed, DrainTakes, HandsBack;
    var k1 := Arrive(k, id);
    n := DrainPrefix(e, t, k1);
    BookedArrive(k, id);
    DrainBooked(e, t, k1);
    DrainFlags(e, t, k1);
    DrainFrames(e, t, k1);
    var d := Drain(e, t, k1);
    assert Ascending(d.task.scheduled);
    hide Booked, SameFlags, Removers, Flagged, Ascending;
    assert k1.scheduled == k.scheduled && k1.drained == k.drained && k1.removed == k.removed;
    DrainSame(e, t, k1, k, d, n);
    ProceedBack(e, t, k, d, n);
    FlagsCount(d.task.removed, k.removed, d.task.scheduled);
    ProceedFlags(k, d);
  }

  lemma {:induction false} DrainSame(e: Env, t: Table, k: Task, k': Task, d: Drained, n: nat)
    requires DrainTakes(e, t, k, d, n) && k'.scheduled == k.scheduled && k'.drained == k.drained
    ensures DrainTakes(e, t, k', d, n)
  {
  }

  lemma {:induction false} ProceedBack(e: Env, t: Table, k: Task, d: Drained, n: nat)
    requires DrainTakes(e, t, k, d, n) && d.task.stage.Reading?
    requires Booked(d.task) && (d.end.Blocked? && d.task.scheduled != [] ==> d.task.scheduled[0] in d.task.inFlight)
    ensures HandsBack(e, t, k, Proceed(d), n)
  {
    hide Present;
    ElemsEmpty(d.task.scheduled);
    hide Booked;
  }

  lemma {:induction false} ProceedFlags(k: Task, d: Drained)
    requires Flagged(d.task.removed, d.task.scheduled) == |Removers(k.removed, d.task.scheduled)|
    requires Removers(k.removed, []) == {}
    ensures Proceed(d).flagged == |Removers(k.removed, Proceed(d).back)|
  {
    hide Flagged, Removers, Stop;
  }

  /** Both maps flag the same of the IDs. */
  ghost predicate SameFlags(removed: map<nat, bool>, removed': map<nat, bool>, ids: seq<nat>) {
    forall x :: x in ids ==> x in removed && x in removed' && removed[x] == removed'[x]
  }

  lemma {:induction false} FlagsCount(removed: map<nat, bool>, removed': map<nat, bool>, ids: seq<nat>)
    requires Ascending(ids) && SameFlags(removed, removed', ids)
    ensures Flagged(removed, ids) == |Removers(removed', ids)| && Removers(removed', []) == {}
  {
    FlaggedCounts(removed, ids);
    hide Ascending, Flagged;
    assert Removers(removed, ids) == Removers(removed', ids);
  }

  /** Draining keeps the flags of what stays scheduled. */
  lemma {:induction false} DrainFlags(e: Env, t: Table, k: Task)
    requires Booked(k)
    ensures var j := Drain(e, t, k).task; SameFlags(j.removed, k.removed, j.scheduled)
    decreases |k.scheduled|
  {
    if k.scheduled != [] && k.scheduled[0] in k.completed {
      HeadFlags(k);
      BookedTake(k);
      hide Booked;
      if e.read(t, k.scheduled[0]).Some? {
        var j := TakeOver(e, t, k);
        assert j.scheduled == TakeHead(k).scheduled && j.removed == TakeHead(k).removed;
        if j.rows < e.target {
          DrainUnfold(e, t, k);
          DrainFrames(e, t, j);
          hide Drain;
          BookedOver(e, t, k);
          DrainFlags(e, t, j);
          DrainSuffix(e, t, j);
          FlagsChain(Drain(e, t, j).task, j, k);
        }
      }
    } else {
      assert Drain(e, t, k).task == k;
      ElemsAll(k.scheduled, k.removed);
    }
  }

  lemma {:induction false} DrainSuffix(e: Env, t: Table, k: Task)
    ensures forall x :: x in Drain(e, t, k).task.scheduled ==> x in k.scheduled
  {
    hide Drain;
    var n := DrainPrefix(e, t, k);
  }

  lemma {:induction false} FlagsChain(i: Task, j: Task, k: Task)
    requires SameFlags(i.removed, j.removed, i.scheduled) && SameFlags(j.removed, k.removed, j.scheduled)
    requires forall x :: x in i.scheduled ==> x in j.scheduled
    ensures SameFlags(i.removed, k.removed, i.scheduled)
  {
  }

  lemma {:induction false} BookedOver(e: Env, t: Table, k: Task)
    requires k.scheduled != [] && e.read(t, k.scheduled[0]).Some? && Booked(TakeHead(k))
    ensures Booked(TakeOver(e, t, k))
  {
  }

  lemma {:induction false} ElemsAll(ids: seq<nat>, removed: map<nat, bool>)
    requires removed.Keys == Elems(ids)
    ensures forall x :: x in ids ==> x in removed
  {
    forall x | x in ids
      ensures x in removed
    {
      assert x in Elems(ids);
    }
  }

  lemma {:induction false} HeadFlags(k: Task)
    requires Booked(k) && k.scheduled != []
    ensures SameFlags(TakeHead(k).removed, k.removed, TakeHead(k).scheduled)
  {
    ElemsAll(k.scheduled, k.removed);
    var id, rest := k.scheduled[0], k.scheduled[1..];
    forall i | 0 <= i < |rest|
      ensures rest[i] != id && rest[i] in k.scheduled
    {
      assert rest[i] == k.scheduled[i + 1];
    }
  }
}
