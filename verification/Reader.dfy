/** Coalescing prefetch of one table task: speculative reservation of later
    batch IDs, reads that complete in any order, reassembly in ID order, and
    hand-back of the reservations that were not needed. */
module Reader {
  import opened Prelude
  import opened WorkPlan
  import opened Records

  /** What storage answers for a table's batch; `None` is a batch that does not exist. */
  type Source = (Table, nat) -> Option<seq<RecordBatch>>

  /** What a run segment is executed against: the storage, the row target of a
      coalesced read and the checkpoint boundary. */
  datatype Env = Env(read: Source, target: nat, max: Option<nat>)

  /** A batch that exists in storage holds at least one record batch. */
  ghost predicate FullBatches(read: Source) {
    forall t, id :: read(t, id).Some? ==> read(t, id).value != []
  }

  /** The row target is positive, and no stored batch is empty: a task takes an
      empty list for the end of the table. */
  ghost predicate EnvOk(e: Env) {
    0 < e.target && FullBatches(e.read)
  }

  const MAX_IN_FLIGHT_SOURCE_BATCH_READS: nat := 2

  /** Where a table task stands; `ended` tells that the table has no more data. */
  datatype Stage = Reading | Read(ended: bool) | Written(ended: bool)

  datatype Task = Task(
    drained: seq<nat>,        // batches taken over in order
    scheduled: seq<nat>,      // reserved, not yet taken over
    inFlight: set<nat>,       // reads not yet completed
    completed: set<nat>,      // reads completed ahead of their turn
    removed: map<nat, bool>,  // whether the reservation removed the whole step
    cursor: nat,
    canReserve: bool,
    rows: nat,
    consumed: nat,
    stage: Stage)

  function NewTask(id: nat): Task {
    Task([], [id], {id}, {}, map[id := false], id, true, 0, 1, Reading)
  }

  // ---------------------------------------------------------------------
  // Specification: what a read delivers, as a function of the pending IDs.
  // ---------------------------------------------------------------------

  datatype Span = Span(taken: nat, missing: bool)

  /** The shortest prefix of `ids` that brings `rows` to the target, cut at the
      first batch missing from storage. */
  function SpanOf(e: Env, t: Table, ids: seq<nat>, rows: nat): (s: Span)
    ensures s.taken <= |ids|
    ensures s.missing ==> s.taken < |ids|
  {
    if ids == [] || e.target <= rows then Span(0, false)
    else match e.read(t, ids[0])
      case None => Span(0, true)
      case Some(b) =>
        var s := SpanOf(e, t, ids[1..], rows + NumRows(b));
        Span(s.taken + 1, s.missing)
  }

  /** The successive coalesced reads of a table over its pending IDs. */
  function Groups(e: Env, t: Table, ids: seq<nat>): seq<seq<nat>>
    requires 0 < e.target
    decreases |ids|
  {
    if ids == [] then [] else
      var s := SpanOf(e, t, ids, 0);
      if s.missing then (if s.taken == 0 then [] else [ids[..s.taken]])
      else [ids[..s.taken]] + Groups(e, t, ids[s.taken..])
  }

  ghost predicate Present(e: Env, t: Table, ids: seq<nat>) {
    forall i :: 0 <= i < |ids| ==> e.read(t, ids[i]).Some?
  }

  /** The prefix of `ids` before the first batch missing from storage. */
  function Available(read: Source, t: Table, ids: seq<nat>): seq<nat> {
    if ids == [] || read(t, ids[0]).None? then []
    else [ids[0]] + Available(read, t, ids[1..])
  }

  function RowsOf(e: Env, t: Table, ids: seq<nat>): seq<RecordBatch> {
    if ids == [] then []
    else (if e.read(t, ids[0]).Some? then e.read(t, ids[0]).value else []) + RowsOf(e, t, ids[1..])
  }

  /** The last of a table's reads holds no record batch at all.  Earlier ones reach
      the row target, so this can only happen to the last. */
  predicate Void(e: Env, t: Table, groups: seq<seq<nat>>) {
    groups != [] && RowsOf(e, t, groups[|groups| - 1]) == []
  }

  /** The reads that are written: all but a void one. */
  function Kept(e: Env, t: Table, groups: seq<seq<nat>>): seq<seq<nat>> {
    if Void(e, t, groups) then groups[..|groups| - 1] else groups
  }

  /** A coalesced read takes the shortest prefix whose rows reach the target, unless it
      runs out of batches or into a missing one. */
  lemma {:induction false} SpanIsMinimal(e: Env, t: Table, ids: seq<nat>, rows: nat)
    ensures var s := SpanOf(e, t, ids, rows);
      && Present(e, t, ids[..s.taken])
      && (s.missing ==> e.read(t, ids[s.taken]).None?)
      && (forall k :: 0 <= k < s.taken ==> rows + |Flat(RowsOf(e, t, ids[..k]))| < e.target)
      && (!s.missing && s.taken < |ids| ==> e.target <= rows + |Flat(RowsOf(e, t, ids[..s.taken]))|)
  {
    hide SpanOf, RowsOf;
    SpanReaches(e, t, ids, rows);
  }

  /** What a span has taken, counted from `rows`. */
  ghost predicate Spans(e: Env, t: Table, ids: seq<nat>, rows: nat, s: Span) {
    && s.taken <= |ids| && (s.missing ==> s.taken < |ids| && e.read(t, ids[s.taken]).None?)
    && Present(e, t, ids[..s.taken])
    && (forall k :: 0 <= k < s.taken ==> rows + NumRows(RowsOf(e, t, ids[..k])) < e.target)
    && (!s.missing && s.taken < |ids| ==> e.target <= rows + NumRows(RowsOf(e, t, ids[..s.taken])))
  }

  lemma {:induction false} SpanReaches(e: Env, t: Table, ids: seq<nat>, rows: nat)
    ensures Spans(e, t, ids, rows, SpanOf(e, t, ids, rows))
  {
    if ids == [] || e.target <= rows || e.read(t, ids[0]).None? {
      assert ids[..0] == [] && NumRows(RowsOf(e, t, [])) == 0;
    } else {
      hide Spans;
      var b := e.read(t, ids[0]).value;
      SpanReaches(e, t, ids[1..], rows + NumRows(b));
      SpansCons(e, t, ids, rows, SpanOf(e, t, ids[1..], rows + NumRows(b)));
    }
  }

  lemma {:induction false} SpansCons(e: Env, t: Table, ids: seq<nat>, rows: nat, tail: Span)
    requires ids != [] && rows < e.target && e.read(t, ids[0]).Some?
    requires Spans(e, t, ids[1..], rows + NumRows(e.read(t, ids[0]).value), tail)
    ensures Spans(e, t, ids, rows, Span(tail.taken + 1, tail.missing))
  {
    var n := tail.taken + 1;
    assert ids[..0] == [] && NumRows(RowsOf(e, t, [])) == 0;
    hide RowsOf, NumRows;
    forall k | 0 < k <= n
      ensures NumRows(RowsOf(e, t, ids[..k])) ==
        NumRows(e.read(t, ids[0]).value) + NumRows(RowsOf(e, t, ids[1..][..k - 1]))
    {
      PrefixRows(e, t, ids, k);
    }
    assert Present(e, t, ids[..n]) by {
      assert forall i :: 0 < i < n ==> ids[..n][i] == ids[1..][..n - 1][i - 1];
    }
  }

  lemma {:induction false} PrefixRows(e: Env, t: Table, ids: seq<nat>, k: nat)
    requires 0 < k <= |ids| && e.read(t, ids[0]).Some?
    ensures NumRows(RowsOf(e, t, ids[..k])) == NumRows(e.read(t, ids[0]).value) + NumRows(RowsOf(e, t, ids[1..][..k - 1]))
  {
    assert ids[..k][1..] == ids[1..][..k - 1] && ids[..k][0] == ids[0];
    FlatAppend(e.read(t, ids[0]).value, RowsOf(e, t, ids[1..][..k - 1]));
  }

  /** Nothing is lost or repeated by grouping: the groups concatenate to exactly
      the batches before the first missing one. */
  lemma {:induction false} GroupsCover(e: Env, t: Table, ids: seq<nat>)
    requires 0 < e.target
    ensures Flat(Groups(e, t, ids)) == Available(e.read, t, ids)
    decreases |ids|
  {
    if ids != [] {
      var s := SpanOf(e, t, ids, 0);
      SpanIsMinimal(e, t, ids, 0);
      AvailableSplit(e, t, ids, s.taken);
      if s.missing {
        FlatSingle(ids[..s.taken]);
        assert ids[..0] == [];
      } else {
        GroupsCover(e, t, ids[s.taken..]);
      }
    }
  }

  lemma {:induction false} AvailableSplit(e: Env, t: Table, ids: seq<nat>, n: nat)
    requires n <= |ids| && Present(e, t, ids[..n])
    ensures Available(e.read, t, ids) == ids[..n] + Available(e.read, t, ids[n..])
  {
    if n == 0 {
      assert ids[0..] == ids;
    } else {
      assert ids[..n][0] == ids[0];
      assert ids[1..][..n - 1] == ids[..n][1..];
      AvailableSplit(e, t, ids[1..], n - 1);
      assert ids[1..][n - 1..] == ids[n..];
      assert ids[..n] == [ids[0]] + ids[1..][..n - 1];
    }
  }

  lemma {:induction false} AvailableAll(e: Env, t: Table, ids: seq<nat>)
    ensures Present(e, t, ids) <==> Available(e.read, t, ids) == ids
    ensures Available(e.read, t, ids) <= ids
  {
    if ids != [] && e.read(t, ids[0]).Some? {
      AvailableAll(e, t, ids[1..]);
      assert ids == [ids[0]] + ids[1..];
    }
  }

  // ---------------------------------------------------------------------
  // The task's own steps.
  // ---------------------------------------------------------------------

  /** The inner reserve loop of the task still has room for another read. */
  predicate WantsReserve(e: Env, k: Task) {
    k.stage.Reading? && k.canReserve && |k.inFlight| < MAX_IN_FLIGHT_SOURCE_BATCH_READS && k.rows < e.target
  }

  function Reserve(k: Task, id: nat, removedStep: bool): Task {
    k.(scheduled := k.scheduled + [id], inFlight := k.inFlight + {id},
       removed := k.removed[id := removedStep], cursor := id, consumed := k.consumed + 1)
  }

  datatype DrainEnd = Blocked | Full | MissingFirst | MissingLater
  datatype Drained = Drained(task: Task, end: DrainEnd)

  /** The task after the head of `scheduled` has been taken off. */
  function TakeHead(k: Task): Task
    requires k.scheduled != []
  {
    k.(scheduled := k.scheduled[1..], completed := k.completed - {k.scheduled[0]},
       removed := k.removed - {k.scheduled[0]})
  }

  /** The task after the read of that head has been added to its result. */
  function TakeOver(e: Env, t: Table, k: Task): Task
    requires k.scheduled != [] && e.read(t, k.scheduled[0]).Some?
  {
    TakeHead(k).(drained := k.drained + [k.scheduled[0]],
                 rows := k.rows + NumRows(e.read(t, k.scheduled[0]).value))
  }

  /** Takes over completed reads in schedule order until the next one is still
      in flight, the target is reached, or a batch is missing. */
  function Drain(e: Env, t: Table, k: Task): Drained
    decreases |k.scheduled|
  {
    if k.scheduled == [] || k.scheduled[0] !in k.completed then Drained(k, Blocked)
    else if e.read(t, k.scheduled[0]).None? then
      Drained(TakeHead(k), if k.drained == [] then MissingFirst else MissingLater)
    else
      var j := TakeOver(e, t, k);
      if e.target <= j.rows then Drained(j, Full) else Drain(e, t, j)
  }

  /** How many steps a hand-back of `ids` puts back into the logical count. */
  function Flagged(removed: map<nat, bool>, ids: seq<nat>): nat {
    if ids == [] then 0
    else (if ids[0] in removed && removed[ids[0]] then 1 else 0) + Flagged(removed, ids[1..])
  }

  /** `consumed.saturating_sub(n)`, one unit at a time. */
  function SatSub(a: nat, n: nat): nat {
    if a < n then 0 else a - n
  }

  /** Stops reading; `restored` reservations go back to the plan. */
  function Stop(k: Task, restored: nat, ended: bool): Task {
    k.(scheduled := [], inFlight := {}, completed := {}, removed := map[], canReserve := false,
       consumed := SatSub(k.consumed, restored), stage := Read(ended))
  }

  /** Read `id` completes. */
  function Arrive(k: Task, id: nat): Task {
    k.(inFlight := k.inFlight - {id}, completed := k.completed + {id})
  }

  /** The task after a read has completed, the reservations it hands back, and
      how many of them had removed their whole step. */
  datatype Completion = Completion(task: Task, back: seq<nat>, flagged: nat)

  /** How the task goes on after draining. */
  function Proceed(d: Drained): Completion {
    var j := d.task;
    match d.end
    case Blocked =>
      if j.inFlight == {} && j.completed == {} then Completion(Stop(j, 0, false), [], 0)
      else Completion(j, [], 0)
    case Full => Completion(Stop(j, |j.scheduled|, false), j.scheduled, Flagged(j.removed, j.scheduled))
    case MissingFirst => Completion(Stop(j, |j.scheduled|, true), j.scheduled, Flagged(j.removed, j.scheduled))
    case MissingLater => Completion(Stop(j, 0, true), [], 0)
  }

  /** One `join_next`: read `id` completes, then the task drains what is ready. */
  function Complete(e: Env, t: Table, k: Task, id: nat): Completion {
    Proceed(Drain(e, t, Arrive(k, id)))
  }
}
