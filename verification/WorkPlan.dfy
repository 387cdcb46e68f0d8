/** The shared work plan of an ETL run: which tables still have to be processed
    for which batch ID.  `WorkState` is the mutable object behind the pipeline's
    lock; the functions above it are the values its methods compute, and the
    interleaving model in `RunSegment` is built from those functions. */
module WorkPlan {
  import opened Prelude

  type Table = string

  /** Remaining steps by batch ID.  The source keeps a `BTreeMap`; its ascending
      iteration order is `Least` of the keys not yet visited. */
  type Plan = map<nat, seq<Table>>

  /** The batch IDs that still hold work for one table. */
  function Ids(plan: Plan, t: Table): set<nat> {
    set id | id in plan && t in plan[id]
  }

  /** All (batch ID, table) work units of a plan. */
  function Units(plan: Plan): set<(nat, Table)> {
    set id, t | id in plan && t in plan[id] :: (id, t)
  }

  ghost predicate Wf(plan: Plan) {
    forall id :: id in plan ==> id <= U64_MAX && plan[id] != [] && Distinct(plan[id])
  }

  predicate Within(max: Option<nat>, id: nat) {
    max.None? || id <= max.value
  }

  /** `tables.remove(position of t)`. */
  function Without(ts: seq<Table>, t: Table): seq<Table> {
    if ts == [] then []
    else if ts[0] == t then ts[1..]
    else [ts[0]] + Without(ts[1..], t)
  }

  lemma {:induction false} WithoutElems(ts: seq<Table>, t: Table)
    requires Distinct(ts)
    ensures Distinct(Without(ts, t))
    ensures forall x :: x in Without(ts, t) <==> x in ts && x != t
  {
    if ts != [] {
      WithoutElems(ts[1..], t);
      assert ts == [ts[0]] + ts[1..];
      assert ts[0] !in ts[1..];
    }
  }

  /** Takes one unit out of the plan; an entry that becomes empty disappears. */
  function Take(plan: Plan, id: nat, t: Table): Plan
    requires id in plan
  {
    var ts := Without(plan[id], t);
    if ts == [] then plan - {id} else plan[id := ts]
  }

  lemma {:induction false} TakeEffect(plan: Plan, id: nat, t: Table)
    requires Wf(plan) && id in plan && t in plan[id]
    ensures Wf(Take(plan, id, t))
    ensures Ids(Take(plan, id, t), t) == Ids(plan, t) - {id}
    ensures forall u :: u != t ==> Ids(Take(plan, id, t), u) == Ids(plan, u)
    ensures Units(Take(plan, id, t)) == Units(plan) - {(id, t)}
    ensures forall k :: k != id ==>
      (k in Take(plan, id, t) <==> k in plan) && (k in plan ==> Take(plan, id, t)[k] == plan[k])
  {
    WithoutElems(plan[id], t);
    var q := Take(plan, id, t);
    assert forall k, u :: (k in q && u in q[k]) <==> (k in plan && u in plan[k] && (k, u) != (id, t)) by {
      forall k, u
        ensures (k in q && u in q[k]) <==> (k in plan && u in plan[k] && (k, u) != (id, t))
      {
        if k == id {
          assert u in Without(plan[id], t) <==> u in plan[id] && u != t;
        }
      }
    }
  }

  /** Hands one unit back: `entry(id).or_default()`, then push if absent. */
  function Give(plan: Plan, id: nat, t: Table): Plan {
    var ts := if id in plan then plan[id] else [];
    plan[id := if t in ts then ts else ts + [t]]
  }

  lemma {:induction false} GiveEffect(plan: Plan, id: nat, t: Table)
    requires Wf(plan) && id <= U64_MAX
    ensures Wf(Give(plan, id, t))
    ensures Ids(Give(plan, id, t), t) == Ids(plan, t) + {id}
    ensures forall u :: u != t ==> Ids(Give(plan, id, t), u) == Ids(plan, u)
    ensures Units(Give(plan, id, t)) == Units(plan) + {(id, t)}
    ensures forall k :: k != id ==>
      (k in Give(plan, id, t) <==> k in plan) && (k in plan ==> Give(plan, id, t)[k] == plan[k])
  {
    var q := Give(plan, id, t);
    assert forall k, u :: (k in q && u in q[k]) <==> (k in plan && u in plan[k]) || (k, u) == (id, t);
  }

  function GiveAll(plan: Plan, ids: seq<nat>, t: Table): Plan
    decreases |ids|
  {
    if ids == [] then plan else GiveAll(Give(plan, ids[0], t), ids[1..], t)
  }

  /** `to` is `plan` with the units of `t` under `ids` added, and nothing else. */
  ghost predicate Gave(plan: Plan, to: Plan, ids: set<nat>, t: Table) {
    && Wf(to)
    && Ids(to, t) == Ids(plan, t) + ids
    && (forall u :: u != t ==> Ids(to, u) == Ids(plan, u))
    && Units(to) == Units(plan) + (set id | id in ids :: (id, t))
    && (forall k :: k !in ids ==> (k in to <==> k in plan) && (k in plan ==> to[k] == plan[k]))
    && to.Keys == plan.Keys + ids
  }

  lemma {:induction false} GaveThen(plan: Plan, mid: Plan, to: Plan, a: set<nat>, b: set<nat>, t: Table)
    requires Gave(plan, mid, a, t) && Gave(mid, to, b, t)
    ensures Gave(plan, to, a + b, t)
  {
    hide Wf;
    hide Ids;
    hide Units;
    assert (set id | id in a + b :: (id, t)) == (set id | id in a :: (id, t)) + (set id | id in b :: (id, t));
  }

  lemma {:induction false} GaveOne(plan: Plan, id: nat, t: Table)
    requires Wf(plan) && id <= U64_MAX
    ensures Gave(plan, Give(plan, id, t), {id}, t)
  {
    GiveEffect(plan, id, t);
    assert (set i | i in {id} :: (i, t)) == {(id, t)};
  }

  lemma {:induction false} GaveNone(plan: Plan, t: Table)
    requires Wf(plan)
    ensures Gave(plan, plan, {}, t)
  {
    var none: set<nat> := {};
    assert (set id | id in none :: (id, t)) == {};
  }

  /** Handing back adds exactly the named units. */
  lemma {:induction false} GiveAllEffect(plan: Plan, ids: seq<nat>, t: Table)
    requires Wf(plan) && forall id :: id in ids ==> id <= U64_MAX
    ensures Gave(plan, GiveAll(plan, ids, t), Elems(ids), t)
    decreases |ids|
  {
    if ids == [] {
      GaveNone(plan, t);
      assert Elems(ids) == {};
    } else {
      var mid := Give(plan, ids[0], t);
      assert ids == [ids[0]] + ids[1..];
      assert ids[0] in ids && forall id :: id in ids[1..] ==> id in ids;
      GaveOne(plan, ids[0], t);
      assert Wf(mid);
      hide Gave;
      GiveAllEffect(mid, ids[1..], t);
      GaveThen(plan, mid, GiveAll(plan, ids, t), {ids[0]}, Elems(ids[1..]), t);
      ElemsCons(ids[0], ids[1..]);
    }
  }

  /** `after.saturating_add(1)`. */
  function Succ(after: nat): nat {
    if after >= U64_MAX then U64_MAX else after + 1
  }

  /** The batch IDs a reservation for `t` may pick. */
  function Candidates(plan: Plan, t: Table, after: nat, max: Option<nat>): set<nat> {
    set id | id in plan && t in plan[id] && Succ(after) <= id && Within(max, id)
  }

  function NextId(plan: Plan, t: Table, after: nat, max: Option<nat>): (r: Option<nat>)
    ensures r.Some? ==> r.value in plan && t in plan[r.value] && Within(max, r.value)
  {
    var c := Candidates(plan, t, after, max);
    if c == {} then None else Some(Least(c))
  }

  /** The table may take `id`: it lies after the cursor (the largest ID lies after
      itself) and not beyond `max`. */
  predicate MayTake(plan: Plan, t: Table, after: nat, max: Option<nat>, id: nat) {
    && id in plan && t in plan[id] && (max.Some? ==> id <= max.value)
    && (after < id || (id == 0xFFFF_FFFF_FFFF_FFFF && id <= after))
  }

  lemma {:induction false} NextIdIs(plan: Plan, t: Table, after: nat, max: Option<nat>)
    requires Wf(plan)
    ensures NextId(plan, t, after, max).None? <==> forall id :: !MayTake(plan, t, after, max, id)
    ensures forall r :: NextId(plan, t, after, max) == Some(r) ==>
      MayTake(plan, t, after, max, r) && forall id :: MayTake(plan, t, after, max, id) ==> r <= id
  {
    var c := Candidates(plan, t, after, max);
    forall id
      ensures MayTake(plan, t, after, max, id) <==> id in c
    {
    }
  }

  /** The tables of one step that are still active (not finished). */
  function Active(ts: seq<Table>, finished: set<Table>): (r: seq<Table>)
    ensures |r| <= |ts|
  {
    if ts == [] then []
    else if ts[0] in finished then Active(ts[1..], finished)
    else [ts[0]] + Active(ts[1..], finished)
  }

  lemma {:induction false} ActiveElems(ts: seq<Table>, finished: set<Table>)
    ensures forall x :: x in Active(ts, finished) <==> x in ts && x !in finished
    ensures Distinct(ts) ==> Distinct(Active(ts, finished))
  {
    if ts != [] {
      ActiveElems(ts[1..], finished);
      assert ts == [ts[0]] + ts[1..];
      assert Distinct(ts) ==> ts[0] !in ts[1..];
    }
  }

  /** The work plan a dataset listing gives rise to, table by table.  With
      `skipFirst` every occurrence of a table's first ID is left out, because
      `initialize` has processed that batch. */
  ghost predicate Plans(plan: Plan, listing: map<Table, seq<nat>>, skipFirst: bool) {
    && Wf(plan)
    && forall t :: Ids(plan, t) ==
        if t in listing then Listed(listing[t], skipFirst) else {}
  }

  function Listed(ids: seq<nat>, skipFirst: bool): set<nat> {
    if skipFirst && ids != [] then Elems(ids) - {ids[0]} else Elems(ids)
  }

  /** The state shared by all table tasks of a pipeline. */
  class WorkState {
    var steps: Plan
    var finished: set<Table>

    constructor ()
      ensures steps == map[] && finished == {}
    {
      steps, finished := map[], {};
    }

    /** Removes and returns the next batch ID after `after` that holds work for
        the table and does not lie beyond `max`.  The flag tells whether the
        whole step left the plan. */
    method ReserveNext(table: Table, after: nat, max: Option<nat>) returns (r: Option<(nat, bool)>)
      requires Wf(steps)
      modifies `steps
      ensures Wf(steps)
      ensures r.None? <==> NextId(old(steps), table, after, max).None?
      ensures r.None? <==> forall id :: !MayTake(old(steps), table, after, max, id)
      ensures r.None? ==> steps == old(steps)
      ensures r.Some? ==>
        && Some(r.value.0) == NextId(old(steps), table, after, max)
        && MayTake(old(steps), table, after, max, r.value.0)
        && (forall id :: MayTake(old(steps), table, after, max, id) ==> r.value.0 <= id)
        && steps == Take(old(steps), r.value.0, table)
        && (r.value.1 <==> r.value.0 !in steps)
    {
      NextIdIs(steps, table, after, max);
      hide MayTake;
      r := None;
      var rest := set id | id in steps && Succ(after) <= id;
      while rest != {}
        invariant steps == old(steps) && r == None
        invariant rest <= set id | id in steps && Succ(after) <= id
        invariant forall id :: id in Candidates(steps, table, after, max) ==> id in rest
        decreases rest
      {
        var id := Least(rest);
        if max.Some? && id > max.value {
          assert Candidates(steps, table, after, max) == {};
          return;
        }
        if table in steps[id] {
          assert id in Candidates(steps, table, after, max);
          assert Least(Candidates(steps, table, after, max)) == id;
          TakeEffect(steps, id, table);
          var tables := Without(steps[id], table);
          steps := if tables == [] then steps - {id} else steps[id := tables];
          return Some((id, tables == []));
        }
        rest := rest - {id};
      }
      assert Candidates(steps, table, after, max) == {};
    }

    /** Hands back the reservations of a table that were not needed. */
    method Restore(table: Table, scheduled: seq<nat>)
      requires Wf(steps) && forall id :: id in scheduled ==> id <= U64_MAX
      modifies `steps
      ensures Wf(steps) && steps == GiveAll(old(steps), scheduled, table)
    {
      var i := 0;
      while i < |scheduled|
        invariant 0 <= i <= |scheduled|
        invariant Wf(steps)
        invariant GiveAll(steps, scheduled[i..], table) == GiveAll(old(steps), scheduled, table)
      {
        var id := scheduled[i];
        assert id in scheduled;
        var tables := if id in steps then steps[id] else [];
        GiveEffect(steps, id, table);
        if table !in tables {
          tables := tables + [table];
        }
        steps := steps[id := tables];
        assert scheduled[i..][1..] == scheduled[i + 1..];
        i := i + 1;
      }
    }

    /** Builds the plan from the listing, skipping duplicates and, after an
        `initialize`, each table's first batch. */
    method Build(listing: map<Table, seq<nat>>, skipFirst: bool)
      requires forall t, i :: t in listing && 0 <= i < |listing[t]| ==> listing[t][i] <= U64_MAX
      modifies this
      ensures Plans(steps, listing, skipFirst) && finished == {}
    {
      var plan: Plan := map[];
      var names := listing.Keys;
      while names != {}
        invariant names <= listing.Keys
        invariant Wf(plan)
        invariant forall t :: t in listing && t !in names ==> Ids(plan, t) == Listed(listing[t], skipFirst)
        invariant forall t :: t !in listing || t in names ==> Ids(plan, t) == {}
        decreases names
      {
        var name :| name in names;
        plan := BuildTable(plan, name, listing[name], skipFirst);
        names := names - {name};
      }
      steps, finished := plan, {};
    }
  }

  method BuildTable(before: Plan, name: Table, ids: seq<nat>, skipFirst: bool) returns (plan: Plan)
    requires Wf(before) && Ids(before, name) == {}
    requires forall id :: id in ids ==> id <= U64_MAX
    ensures Wf(plan)
    ensures Ids(plan, name) == Listed(ids, skipFirst)
    ensures forall u :: u != name ==> Ids(plan, u) == Ids(before, u)
  {
    plan := before;
    var seen: set<nat> := {};
    var i := 0;
    while i < |ids|
      invariant 0 <= i <= |ids|
      invariant Wf(plan)
      invariant seen == Listed(ids, skipFirst) * Elems(ids[..i])
      invariant Ids(plan, name) == seen
      invariant forall u :: u != name ==> Ids(plan, u) == Ids(before, u)
    {
      var id := ids[i];
      assert ids[..i + 1] == ids[..i] + [id];
      assert Elems(ids[..i + 1]) == Elems(ids[..i]) + {id};
      assert id in Elems(ids);
      if !(skipFirst && id == ids[0]) && id !in seen {
        seen := seen + {id};
        GiveEffect(plan, id, name);
        assert name !in (if id in plan then plan[id] else []) by { assert id !in Ids(plan, name); }
        plan := plan[id := (if id in plan then plan[id] else []) + [name]];
      }
      i := i + 1;
    }
    assert ids[..i] == ids;
  }
}
