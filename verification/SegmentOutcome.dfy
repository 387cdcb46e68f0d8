/** Where a run segment can end: the outcome is a function of the plan, the
    finished tables and the storage, whatever the schedule. */
module SegmentOutcome {
  import opened Prelude
  import opened WorkPlan
  import opened Records
  import opened Reader
  import opened TableLane
  import opened RunSegment
  import opened SegmentSafety

  /** The part of a plan beyond a checkpoint boundary. */
  function Rest(P: Plan, max: Option<nat>): Plan {
    map id | id in P && !Within(max, id) :: P[id]
  }

  /** The coalesced reads a segment writes for one table. */
  function Delivered(e: Env, P: Plan, F: set<Table>, t: Table): seq<seq<nat>>
    requires 0 < e.target
  {
    if t in F then [] else Kept(e, t, Groups(e, t, Scope(e, P, t)))
  }

  ghost predicate Outcome(e: Env, P: Plan, F: set<Table>, s: Segment)
    requires 0 < e.target
  {
    && s.status == (if e.max.Some? then Paused else Completed)
    && s.plan == Rest(P, e.max)
    && (forall t :: Out(s.out, t) == Delivered(e, P, F, t))
    && (forall t :: t in s.finished <==> t in F || !Present(e, t, Scope(e, P, t)) || EndsVoid(e, P, t))
  }

  /** A table's last read inside the interval holds no record batch. */
  predicate EndsVoid(e: Env, P: Plan, t: Table)
    requires 0 < e.target
  {
    Void(e, t, Groups(e, t, Scope(e, P, t)))
  }

  /** What a segment is meant to do to the tables: everything available in the
      interval is delivered, and a table ends only at a missing batch. */
  ghost predicate Ideal(e: Env, P: Plan, F: set<Table>, s: Segment)
    requires 0 < e.target
  {
    && (forall t :: Flat(Out(s.out, t)) == if t in F then [] else Available(e.read, t, Scope(e, P, t)))
    && (forall t :: t in s.finished <==> t in F || !Present(e, t, Scope(e, P, t)))
  }

  lemma {:induction false} KeysUpto(S: set<nat>, n: nat)
    requires n < |Sorted(S)|
    ensures |set k | k in S && k <= Sorted(S)[n]| == n + 1
  {
    SortedIs(S);
    hide Sorted;
    var ks := Sorted(S);
    var pre := ks[..n + 1];
    DistinctCard(pre);
    forall k
      ensures k in pre <==> k in S && k <= ks[n]
    {
      if k in S && k <= ks[n] {
        assert k in Elems(ks);
        var i :| 0 <= i < |ks| && ks[i] == k;
        assert i <= n;
        assert pre[i] == k;
      }
      if k in pre {
        assert k in ks && k in Elems(ks);
      }
    }
    assert (set k | k in S && k <= ks[n]) == Elems(pre);
  }

  /** With a positive budget, leaving the outer loop means that nothing inside
      the checkpoint interval is left, and the loop is left by the boundary or
      by exhaustion exactly as the boundary is set or not. */
  lemma {:induction false} LeavesClean(e: Env, limit: Option<nat>, P: Plan, F: set<Table>, s: Segment)
    requires Inv(e, P, F, s) && e.max == Boundary(P, limit) && limit != Some(0)
    requires !s.busy && (LimitReached(limit, s) || !HasNext(e, s))
    ensures forall id :: id in s.plan ==> !Within(e.max, id)
    ensures LimitReached(limit, s) ==> e.max.Some?
  {
    if LimitReached(limit, s) {
      AllVisited(P, limit.value, e.max, s.last, s.outer);
      forall id | id in s.plan
        ensures !Within(e.max, id)
      {
        assert Within(e.max, id) ==> id in Visited(P, s.last);
      }
    }
  }

  /** After as many outer steps as the budget allows, every key up to the boundary
      has been moved past. */
  lemma {:induction false} AllVisited(P: Plan, limit: nat, max: Option<nat>, last: Option<nat>, outer: nat)
    requires 0 < limit <= outer <= |Visited(P, last)| && max == Boundary(P, Some(limit))
    requires last.Some? ==> Within(max, last.value)
    ensures max.Some? && forall k :: k in P && Within(max, k) ==> k in Visited(P, last)
  {
    SortedIs(P.Keys);
    var seen := Visited(P, last);
    SubsetCard(seen, P.Keys);
    var upto := set k | k in P.Keys && k <= Sorted(P.Keys)[limit - 1];
    KeysUpto(P.Keys, limit - 1);
    assert seen <= upto;
    SubsetCard(seen, upto);
  }

  /** A segment has stopped only by leaving its outer loop. */
  ghost predicate Settled(e: Env, limit: Option<nat>, s: Segment) {
    s.status != Running ==>
      && !s.busy
      && (LimitReached(limit, s) || !HasNext(e, s))
      && s.status == Left(e, limit, s).status
  }

  lemma {:induction false} LeftOutcome(e: Env, limit: Option<nat>, P: Plan, F: set<Table>, s: Segment)
    requires Inv(e, P, F, s) && Settled(e, limit, s) && s.status != Running
    requires e.max == Boundary(P, limit) && limit != Some(0)
    ensures Outcome(e, P, F, s)
  {
    LeavesClean(e, limit, P, F, s);
    forall t
      ensures Out(s.out, t) == Delivered(e, P, F, t)
      ensures t in s.finished <==> t in F || !Present(e, t, Scope(e, P, t)) || EndsVoid(e, P, t)
    {
      var l := LaneOf(e, s, t);
      assert LaneFine(e, P, F, t, l);
      assert ScopeIds(e, s.plan, t) == {};
      if t !in F {
        LaneDone(e, t, Scope(e, P, t), l);
      }
    }
    assert s.plan == Rest(P, e.max);
  }

  lemma {:induction false} StepSettles(e: Env, limit: Option<nat>, s: Segment, a: Action)
    requires Enabled(e, limit, s, a)
    ensures Settled(e, limit, Next(e, limit, s, a))
  {
  }

  lemma {:induction false} RunKeeps(e: Env, limit: Option<nat>, P: Plan, F: set<Table>, s: Segment, acts: seq<Action>, s': Segment)
    requires Inv(e, P, F, s) && Settled(e, limit, s) && Reaches(e, limit, s, acts, s')
    ensures Inv(e, P, F, s') && Settled(e, limit, s')
    decreases |acts|
  {
    if acts != [] {
      StepKeeps(e, limit, P, F, s, acts[0]);
      StepSettles(e, limit, s, acts[0]);
      RunKeeps(e, limit, P, F, Next(e, limit, s, acts[0]), acts[1..], s');
    }
  }

  /** Schedule independence and checkpoint exactness of a segment: every schedule
      that stops a segment with a positive budget (or none) leaves the plan cut at
      the boundary, has written exactly the prescribed reads of every table in
      order, and has finished exactly the tables with a missing batch or a void
      last read. */
  lemma {:induction false} SegmentOutcomeFixed(read: Source, target: nat, limit: Option<nat>,
                                               P: Plan, F: set<Table>, acts: seq<Action>, s: Segment)
    requires Wf(P) && limit != Some(0) && 0 < target
    requires Reaches(Env(read, target, Boundary(P, limit)), limit, Begin(P, F), acts, s)
    requires s.status != Running
    ensures Outcome(Env(read, target, Boundary(P, limit)), P, F, s)
  {
    var e := Env(read, target, Boundary(P, limit));
    BeginInv(e, P, F);
    RunKeeps(e, limit, P, F, Begin(P, F), acts, s);
    LeftOutcome(e, limit, P, F, s);
  }

  /** A zero budget pauses at once and consumes nothing, so a caller that keeps
      continuing makes no progress. */
  lemma {:induction false} ZeroBudgetStalls(e: Env, P: Plan, F: set<Table>, acts: seq<Action>, s: Segment)
    requires Reaches(e, Some(0), Begin(P, F), acts, s) && s.status != Running
    ensures s == Begin(P, F).(status := Paused)
  {
    assert acts[0] == Leaving;
    assert Next(e, Some(0), Begin(P, F), Leaving).status == Paused;
  }

  lemma {:induction false} GroupsNonempty(e: Env, t: Table, ids: seq<nat>)
    requires 0 < e.target
    ensures forall g :: g in Groups(e, t, ids) ==> g != [] && Present(e, t, g)
    decreases |ids|
  {
    if ids != [] {
      var s := SpanOf(e, t, ids, 0);
      SpanIsMinimal(e, t, ids, 0);
      if !s.missing {
        GroupsNonempty(e, t, ids[s.taken..]);
      }
    }
  }

  /** Batches that all hold a record batch never make a void read. */
  lemma {:induction false} NeverVoid(e: Env, P: Plan, t: Table)
    requires EnvOk(e)
    ensures !EndsVoid(e, P, t)
  {
    var groups := Groups(e, t, Scope(e, P, t));
    GroupsNonempty(e, t, Scope(e, P, t));
    if groups != [] {
      var g := groups[|groups| - 1];
      assert g in groups;
      assert e.read(t, g[0]).Some?;
    }
  }

  /** A void read has batches but no rows: dropping it loses IDs. */
  lemma {:induction false} VoidLosesIds(e: Env, t: Table, ids: seq<nat>)
    requires 0 < e.target
    ensures Flat(Kept(e, t, Groups(e, t, ids))) == Available(e.read, t, ids) <==> !Void(e, t, Groups(e, t, ids))
  {
    var groups := Groups(e, t, ids);
    GroupsCover(e, t, ids);
    if Void(e, t, groups) {
      var n := |groups| - 1;
      GroupsNonempty(e, t, ids);
      assert groups[n] in groups;
      assert groups == groups[..n] + [groups[n]];
      FlatSnoc(groups[..n], groups[n]);
      assert |Flat(groups)| == |Flat(groups[..n])| + |groups[n]|;
    }
  }

  /** Exactly when a segment does what it is meant to: if and only if no table that
      was still going ends the interval with a read of no record batch. */
  lemma {:induction false} IdealIff(e: Env, P: Plan, F: set<Table>, s: Segment)
    requires 0 < e.target && Outcome(e, P, F, s)
    ensures Ideal(e, P, F, s) <==> forall t :: t !in F ==> !EndsVoid(e, P, t)
  {
    forall t
      ensures Flat(Out(s.out, t)) == (if t in F then [] else Available(e.read, t, Scope(e, P, t))) <==> t in F || !EndsVoid(e, P, t)
    {
      VoidLosesIds(e, t, Scope(e, P, t));
      assert Out(s.out, t) == Delivered(e, P, F, t);
    }
  }

  /** The failing family: a present batch without record batches, alone in the
      interval, ends its table although a later batch may follow. */
  lemma {:induction false} EmptyBatchEndsTable(read: Source, target: nat, t: Table, id: nat, next: nat, acts: seq<Action>, s: Segment)
    requires 0 < target && id < next <= U64_MAX && read(t, id) == Some([])
    requires var P: Plan := map[id := [t], next := [t]];
      Reaches(Env(read, target, Boundary(P, Some(1))), Some(1), Begin(P, {}), acts, s) && s.status != Running
    ensures s.status == Paused && t in s.finished && next in s.plan
  {
    var P: Plan := map[id := [t], next := [t]];
    var e := Env(read, target, Boundary(P, Some(1)));
    FirstOfTwo(t, id, next);
    SegmentOutcomeFixed(read, target, Some(1), P, {}, acts, s);
    LoneEmptyIsVoid(e, t, id);
    assert EndsVoid(e, P, t) by {
      LoneScope(e, t, id, next);
    }
  }

  lemma {:induction false} FirstOfTwo(t: Table, id: nat, next: nat)
    requires id < next
    ensures Boundary(map[id := [t], next := [t]], Some(1)) == Some(id)
  {
    SortedCons({id, next}, id);
    assert (map[id := [t], next := [t]]).Keys == {id, next};
  }

  lemma {:induction false} LoneScope(e: Env, t: Table, id: nat, next: nat)
    requires id < next && e.max == Some(id)
    ensures Scope(e, map[id := [t], next := [t]], t) == [id]
  {
    assert ScopeIds(e, map[id := [t], next := [t]], t) == {id};
    SortedCons({id}, id);
    assert {id} - {id} == {};
  }

  lemma {:induction false} LoneEmptyIsVoid(e: Env, t: Table, id: nat)
    requires 0 < e.target && e.read(t, id) == Some([])
    ensures Void(e, t, Groups(e, t, [id]))
  {
    assert [id][1..] == [] && [id][..1] == [id];
    assert SpanOf(e, t, [], NumRows([])) == Span(0, false);
    assert SpanOf(e, t, [id], 0) == Span(1, false);
    assert Groups(e, t, [id]) == [[id]] + Groups(e, t, []);
    assert RowsOf(e, t, [id]) == [] + RowsOf(e, t, []);
  }

  /** Nothing written twice or out of order; and nothing skipped, if and only if the
      interval does not end with a void read. */
  lemma {:induction false} DeliveredOnceInOrder(e: Env, P: Plan, F: set<Table>, t: Table)
    requires 0 < e.target
    ensures Ascending(Flat(Delivered(e, P, F, t))) && Elems(Flat(Delivered(e, P, F, t))) <= ScopeIds(e, P, t)
    ensures t !in F ==> Flat(Delivered(e, P, F, t)) <= Available(e.read, t, Scope(e, P, t))
    ensures t !in F ==> (Flat(Delivered(e, P, F, t)) == Available(e.read, t, Scope(e, P, t)) <==> !EndsVoid(e, P, t))
    ensures t !in F ==>
      (Elems(Flat(Delivered(e, P, F, t))) == ScopeIds(e, P, t) <==> Present(e, t, Scope(e, P, t)) && !EndsVoid(e, P, t))
  {
    var ids := Scope(e, P, t);
    SortedIs(ScopeIds(e, P, t));
    if t !in F {
      VoidLosesIds(e, t, ids);
      KeptIsPrefix(e, t, ids);
      AvailableAll(e, t, ids);
      PrefixElems(Flat(Delivered(e, P, F, t)), ids);
    }
  }

  lemma {:induction false} KeptIsPrefix(e: Env, t: Table, ids: seq<nat>)
    requires 0 < e.target
    ensures Flat(Kept(e, t, Groups(e, t, ids))) <= Available(e.read, t, ids)
  {
    var groups := Groups(e, t, ids);
    GroupsCover(e, t, ids);
    if Void(e, t, groups) {
      var n := |groups| - 1;
      assert groups == groups[..n] + [groups[n]];
      FlatSnoc(groups[..n], groups[n]);
    }
  }

  lemma {:induction false} PrefixElems(a: seq<nat>, ids: seq<nat>)
    requires Ascending(ids) && a <= ids
    ensures Ascending(a) && Elems(a) <= Elems(ids) && (Elems(a) == Elems(ids) <==> a == ids)
  {
    assert forall i :: 0 <= i < |a| ==> a[i] == ids[i];
    DistinctCard(a);
    DistinctCard(ids);
    if Elems(a) == Elems(ids) {
      assert |a| == |ids|;
    }
  }
}
