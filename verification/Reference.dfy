/** A pipeline run without tasks, reservations or coalescing: per table the set
    of batch IDs still to do.  The real pipeline is proved to refine it, and the
    laws of whole runs are proved on it. */
module Reference {
  import opened Prelude
  import opened WorkPlan
  import opened Records
  import opened Reader
  import opened RunSegment
  import opened SegmentOutcome

  datatype Ref = Ref(todo: map<Table, set<nat>>, fin: set<Table>, sink: map<Table, seq<nat>>)

  ghost predicate RefOk(r: Ref) {
    r.todo.Keys == r.sink.Keys
  }

  function Keys(todo: map<Table, set<nat>>): set<nat> {
    set t, id | t in todo && id in todo[t] :: id
  }

  function Upto(ids: set<nat>, max: Option<nat>): set<nat> {
    set id | id in ids && Within(max, id)
  }

  predicate Missing(read: Source, t: Table, ids: seq<nat>) {
    Available(read, t, ids) != ids
  }

  function TodoAfter(todo: map<Table, set<nat>>, max: Option<nat>): map<Table, set<nat>> {
    map t | t in todo :: todo[t] - Upto(todo[t], max)
  }

  function Exhausted(read: Source, todo: map<Table, set<nat>>, max: Option<nat>): set<Table> {
    set t | t in todo && Missing(read, t, Sorted(Upto(todo[t], max)))
  }

  function SinkAfter(read: Source, todo: map<Table, set<nat>>, fin: set<Table>, sink: map<Table, seq<nat>>, max: Option<nat>): map<Table, seq<nat>>
    requires todo.Keys == sink.Keys
  {
    map t | t in todo :: sink[t] + if t in fin then [] else Available(read, t, Sorted(Upto(todo[t], max)))
  }

  /** One run segment: everything up to the budget's last key. */
  function Advance(read: Source, r: Ref, limit: Option<nat>): (r': Ref)
    requires RefOk(r)
    ensures RefOk(r') && r'.todo.Keys == r.todo.Keys
  {
    var max := Bound(Keys(r.todo), limit);
    Ref(TodoAfter(r.todo, max), r.fin + Exhausted(read, r.todo, max), SinkAfter(read, r.todo, r.fin, r.sink, max))
  }

  predicate Pauses(r: Ref, limit: Option<nat>) {
    Bound(Keys(r.todo), limit).Some?
  }

  // ---------------------------------------------------------------------
  // What a run will have delivered in the end never changes.
  // ---------------------------------------------------------------------

  /** What a table has received plus what it is still going to receive. */
  function Prospect(read: Source, r: Ref, t: Table): seq<nat>
    requires RefOk(r) && t in r.todo
  {
    r.sink[t] + if t in r.fin then [] else Available(read, t, Sorted(r.todo[t]))
  }

  lemma {:induction false} SortedSplit(s: set<nat>, max: Option<nat>)
    ensures Sorted(s) == Sorted(Upto(s, max)) + Sorted(s - Upto(s, max))
  {
    var a, b := Upto(s, max), s - Upto(s, max);
    SortedConcat(a, b);
    assert a + b == s;
  }

  lemma {:induction false} SortedConcat(a: set<nat>, b: set<nat>)
    requires forall x, y :: x in a && y in b ==> x < y
    ensures Sorted(a + b) == Sorted(a) + Sorted(b)
  {
    SortedIs(a);
    SortedIs(b);
    AscendingConcat(Sorted(a), Sorted(b));
    SortedPrepend(Sorted(a), b);
  }

  lemma {:induction false} AscendingConcat(l: seq<nat>, m: seq<nat>)
    requires Ascending(l) && Ascending(m) && forall x, y :: x in Elems(l) && y in Elems(m) ==> x < y
    ensures Ascending(l + m)
  {
    forall i, j | 0 <= i < j < |l + m|
      ensures (l + m)[i] < (l + m)[j]
    {
      if i < |l| <= j {
        assert l[i] in Elems(l) && m[j - |l|] in Elems(m);
      }
    }
  }

  lemma {:induction false} AvailableConcat(read: Source, t: Table, a: seq<nat>, b: seq<nat>)
    ensures Available(read, t, a + b) ==
      if Missing(read, t, a) then Available(read, t, a) else a + Available(read, t, b)
  {
    if a == [] {
      assert a + b == b;
    } else {
      assert (a + b)[1..] == a[1..] + b;
      if read(t, a[0]).Some? {
        AvailableConcat(read, t, a[1..], b);
        MissingTail(read, t, a);
        hide Missing;
        ConsAppend(a, Available(read, t, b));
      }
    }
  }

  lemma {:induction false} MissingTail(read: Source, t: Table, a: seq<nat>)
    requires a != [] && read(t, a[0]).Some?
    ensures Missing(read, t, a) <==> Missing(read, t, a[1..])
  {
    var x, rest := a[0], Available(read, t, a[1..]);
    assert a == [x] + a[1..];
    assert ([x] + rest)[1..] == rest;
  }

  lemma {:induction false} ConsAppend(a: seq<nat>, b: seq<nat>)
    requires a != []
    ensures [a[0]] + (a[1..] + b) == a + b
  {
  }

  lemma {:induction false} AvailableSegment(read: Source, t: Table, ids: set<nat>, max: Option<nat>)
    ensures var a, b := Sorted(Upto(ids, max)), Sorted(ids - Upto(ids, max));
      Available(read, t, Sorted(ids)) ==
        Available(read, t, a) + if Missing(read, t, a) then [] else Available(read, t, b)
  {
    SortedSplit(ids, max);
    AvailableConcat(read, t, Sorted(Upto(ids, max)), Sorted(ids - Upto(ids, max)));
  }

  /** Conservation over a segment, for every budget. */
  lemma {:induction false} AdvanceKeepsProspect(read: Source, r: Ref, limit: Option<nat>, t: Table)
    requires RefOk(r) && t in r.todo
    ensures Prospect(read, Advance(read, r, limit), t) == Prospect(read, r, t)
  {
    var now := Upto(r.todo[t], Bound(Keys(r.todo), limit));
    AvailableSegment(read, t, r.todo[t], Bound(Keys(r.todo), limit));
    AdvanceAt(read, r, limit, t);
    hide Missing;
    hide Available;
    hide Bound;
    hide Keys;
    hide Sorted;
    hide Upto;
    hide Advance;
    hide RefOk;
    Rejoin(r.sink[t], Available(read, t, Sorted(now)), Available(read, t, Sorted(r.todo[t] - now)), t in r.fin,
           Missing(read, t, Sorted(now)));
  }

  lemma {:induction false} Rejoin(sink: seq<nat>, now: seq<nat>, later: seq<nat>, fin: bool, missing: bool)
    ensures (sink + if fin then [] else now) + (if fin || missing then [] else later) ==
      sink + if fin then [] else (now + if missing then [] else later)
  {
  }

  /** What a segment does to one table. */
  lemma {:induction false} AdvanceAt(read: Source, r: Ref, limit: Option<nat>, t: Table)
    requires RefOk(r) && t in r.todo
    ensures var r', now := Advance(read, r, limit), Upto(r.todo[t], Bound(Keys(r.todo), limit));
      && r'.todo[t] == r.todo[t] - now
      && r'.sink[t] == r.sink[t] + (if t in r.fin then [] else Available(read, t, Sorted(now)))
      && (t in r'.fin <==> t in r.fin || Missing(read, t, Sorted(now)))
  {
    hide Missing;
    hide Available;
    hide Bound;
    hide Keys;
    hide Sorted;
    hide Upto;
  }

  /** Any number of segments with any budgets. */
  function AdvanceAll(read: Source, r: Ref, limits: seq<Option<nat>>): (r': Ref)
    requires RefOk(r)
    ensures RefOk(r') && r'.todo.Keys == r.todo.Keys
    decreases |limits|
  {
    if limits == [] then r else AdvanceAll(read, Advance(read, r, limits[0]), limits[1..])
  }

  /** Exactly once, in order, over a whole run: whatever the budgets, once nothing
      is left to do each table has received precisely the ascending list of its
      batches, cut before the first one missing from storage. */
  lemma {:induction false} RunDeliversExactly(read: Source, r: Ref, limits: seq<Option<nat>>, t: Table)
    requires RefOk(r) && t in r.todo
    ensures Prospect(read, AdvanceAll(read, r, limits), t) == Prospect(read, r, t)
    ensures Keys(AdvanceAll(read, r, limits).todo) == {} ==>
      AdvanceAll(read, r, limits).sink[t] == Prospect(read, r, t)
    decreases |limits|
  {
    if limits != [] {
      AdvanceKeepsProspect(read, r, limits[0], t);
      RunDeliversExactly(read, Advance(read, r, limits[0]), limits[1..], t);
    } else if Keys(r.todo) == {} {
      assert r.todo[t] == {} by {
        assert forall id :: id in r.todo[t] ==> id in Keys(r.todo);
      }
      assert Sorted({}) == [];
      assert r.sink[t] + [] == r.sink[t];
    }
  }

  // ---------------------------------------------------------------------
  // How often a run pauses.
  // ---------------------------------------------------------------------

  lemma {:induction false} BoundSplits(K: set<nat>, limit: nat)
    requires 0 < limit
    ensures Bound(K, Some(limit)).Some? <==> limit <= |K|
    ensures Bound(K, Some(limit)).Some? ==> |K - Upto(K, Bound(K, Some(limit)))| == |K| - limit
    ensures Bound(K, Some(limit)).None? ==> K - Upto(K, Bound(K, Some(limit))) == {}
  {
    assert |Sorted(K)| == |K| by {
      SortedIs(K);
    }
    hide Sorted;
    var max := Bound(K, Some(limit));
    if max.Some? {
      KeysUpto(K, limit - 1);
      assert Upto(K, max) == set k | k in K && k <= Sorted(K)[limit - 1];
      hide Upto;
      Complement(K, Upto(K, max));
    }
  }

  lemma {:induction false} Complement(K: set<nat>, part: set<nat>)
    requires part <= K
    ensures |K - part| == |K| - |part|
  {
    assert K == part + (K - part);
  }

  lemma {:induction false} AdvanceKeys(read: Source, r: Ref, limit: nat)
    requires RefOk(r) && 0 < limit
    ensures Pauses(r, Some(limit)) <==> limit <= |Keys(r.todo)|
    ensures Pauses(r, Some(limit)) ==> |Keys(Advance(read, r, Some(limit)).todo)| == |Keys(r.todo)| - limit
    ensures !Pauses(r, Some(limit)) ==> Keys(Advance(read, r, Some(limit)).todo) == {}
  {
    KeysLeft(r, Advance(read, r, Some(limit)), Bound(Keys(r.todo), Some(limit)));
    BoundSplits(Keys(r.todo), limit);
  }

  lemma {:induction false} KeysLeft(r: Ref, r': Ref, max: Option<nat>)
    requires r'.todo == TodoAfter(r.todo, max)
    ensures Keys(r'.todo) == Keys(r.todo) - Upto(Keys(r.todo), max)
  {
    forall id | id in Keys(r.todo) - Upto(Keys(r.todo), max)
      ensures id in Keys(r'.todo)
    {
      var t :| t in r.todo && id in r.todo[t];
      assert id in r'.todo[t];
    }
    forall id | id in Keys(r'.todo)
      ensures id in Keys(r.todo) - Upto(Keys(r.todo), max)
    {
      var t :| t in r'.todo && id in r'.todo[t];
      assert id in r.todo[t];
    }
  }

  /** How many times a run with budget `limit` pauses before it completes. */
  function PauseCount(read: Source, r: Ref, limit: nat): nat
    requires RefOk(r) && 0 < limit
    decreases |Keys(r.todo)|
  {
    AdvanceKeys(read, r, limit);
    if Pauses(r, Some(limit)) then 1 + PauseCount(read, Advance(read, r, Some(limit)), limit) else 0
  }

  /** How often `d` can be taken off `n`. */
  function Times(n: nat, d: nat): nat
    requires 0 < d
  {
    if d <= n then 1 + Times(n - d, d) else 0
  }

  lemma {:induction false} PauseTimes(read: Source, r: Ref, limit: nat)
    requires RefOk(r) && 0 < limit
    ensures PauseCount(read, r, limit) == Times(|Keys(r.todo)|, limit)
    decreases |Keys(r.todo)|
  {
    AdvanceKeys(read, r, limit);
    if Pauses(r, Some(limit)) {
      PauseTimes(read, Advance(read, r, Some(limit)), limit);
    }
  }

  /** A plan of N keys pauses exactly floor(N / L) times, missing batches or not: the
      quotient is the count that leaves less than L keys. */
  lemma {:induction false} PausesFloor(read: Source, r: Ref, limit: nat)
    requires RefOk(r) && 0 < limit
    ensures IsFloor(PauseCount(read, r, limit), |Keys(r.todo)|, limit)
  {
    PauseTimes(read, r, limit);
    hide PauseCount;
    hide Keys;
    hide IsFloor;
    TimesFloor(|Keys(r.todo)|, limit);
  }

  /** `c` is `n / d`, rounded down. */
  ghost predicate IsFloor(c: nat, n: nat, d: nat) {
    c * d <= n < (c + 1) * d
  }

  lemma {:induction false} TimesFloor(n: nat, d: nat)
    requires 0 < d
    ensures IsFloor(Times(n, d), n, d)
  {
    hide IsFloor;
    if d <= n {
      TimesFloor(n - d, d);
      FloorStep(Times(n - d, d), n, d);
    } else {
      FloorZero(n, d);
    }
  }

  lemma {:induction false} FloorZero(n: nat, d: nat)
    requires n < d
    ensures IsFloor(0, n, d)
  {
  }

  lemma {:induction false} FloorStep(c: nat, n: nat, d: nat)
    requires d <= n && IsFloor(c, n - d, d)
    ensures IsFloor(c + 1, n, d)
  {
    assert (c + 1) * d == c * d + d;
    assert (c + 2) * d == (c + 1) * d + d;
  }
}
