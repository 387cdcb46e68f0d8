/** Reading one logical batch that is stored as several parts: parts are read
    concurrently, complete in any order, and are merged in part-ID order. */
module PartReader {
  import opened Prelude
  import opened Records

  datatype ReadResult = ReadResult(batches: seq<RecordBatch>, rows: nat, bytes: nat, keys: seq<string>)

  /** Storage of one batch: `None` asks for the unsplit batch, `Some(p)` for a part. */
  type PartSource = Option<nat> -> Option<ReadResult>

  datatype Answer = Ok(result: Option<ReadResult>) | MissingPart

  const MAX_IN_FLIGHT_SOURCE_PART_READS: nat := 2

  ghost predicate Stored(read: PartSource, ids: seq<nat>) {
    forall i :: 0 <= i < |ids| ==> read(Some(ids[i])).Some?
  }

  /** The parts one after the other; the key columns are those of the first. */
  function Merged(read: PartSource, ids: seq<nat>): ReadResult
    requires Stored(read, ids)
  {
    if ids == [] then ReadResult([], 0, 0, [])
    else
      var n := |ids| - 1;
      Extended(Merged(read, ids[..n]), read(Some(ids[n])).value, n == 0)
  }

  function Extended(acc: ReadResult, part: ReadResult, first: bool): ReadResult {
    ReadResult(acc.batches + part.batches, acc.rows + part.rows, acc.bytes + part.bytes,
               if first then part.keys else acc.keys)
  }

  // ---------------------------------------------------------------------
  // What a merge is, on the stored parts alone.
  // ---------------------------------------------------------------------

  /** The record batches of every part, in order. */
  function BatchLists(read: PartSource, ids: seq<nat>): seq<seq<RecordBatch>>
    requires Stored(read, ids)
  {
    seq(|ids|, i requires 0 <= i < |ids| => read(Some(ids[i])).value.batches)
  }

  function TotalRows(read: PartSource, ids: seq<nat>): nat
    requires Stored(read, ids)
  {
    if ids == [] then 0 else read(Some(ids[0])).value.rows + TotalRows(read, ids[1..])
  }

  function TotalBytes(read: PartSource, ids: seq<nat>): nat
    requires Stored(read, ids)
  {
    if ids == [] then 0 else read(Some(ids[0])).value.bytes + TotalBytes(read, ids[1..])
  }

  /** The parts' record batches one part after the other, their rows and bytes added
      up, and the key columns of the first part. */
  ghost predicate IsMerge(read: PartSource, ids: seq<nat>, r: ReadResult)
    requires Stored(read, ids)
  {
    && r.batches == Flat(BatchLists(read, ids))
    && r.rows == TotalRows(read, ids) && r.bytes == TotalBytes(read, ids)
    && r.keys == if ids == [] then [] else read(Some(ids[0])).value.keys
  }

  lemma {:induction false} TotalsSnoc(read: PartSource, ids: seq<nat>, id: nat)
    requires Stored(read, ids + [id]) && Stored(read, ids) && read(Some(id)).Some?
    ensures TotalRows(read, ids + [id]) == TotalRows(read, ids) + read(Some(id)).value.rows
    ensures TotalBytes(read, ids + [id]) == TotalBytes(read, ids) + read(Some(id)).value.bytes
  {
    var all := ids + [id];
    if ids == [] {
      assert all == [id] && all[1..] == [];
    } else {
      assert all[1..] == ids[1..] + [id] && all[0] == ids[0];
      TotalsSnoc(read, ids[1..], id);
    }
  }

  lemma {:induction false} MergedIs(read: PartSource, ids: seq<nat>)
    requires Stored(read, ids)
    ensures IsMerge(read, ids, Merged(read, ids))
    decreases |ids|
  {
    if ids == [] {
      assert BatchLists(read, ids) == [];
    } else {
      var n := |ids| - 1;
      var init, id := ids[..n], ids[n];
      assert ids == init + [id];
      MergedIs(read, init);
      TotalsSnoc(read, init, id);
      assert BatchLists(read, ids) == BatchLists(read, init) + [read(Some(id)).value.batches];
      FlatSnoc(BatchLists(read, init), read(Some(id)).value.batches);
    }
  }

  // ---------------------------------------------------------------------
  // Sorting the part IDs
  // ---------------------------------------------------------------------

  ghost predicate Rising(ids: seq<nat>) {
    forall i, j :: 0 <= i < j < |ids| ==> ids[i] <= ids[j]
  }

  function InsertPart(x: nat, ids: seq<nat>): seq<nat> {
    if ids == [] || x <= ids[0] then [x] + ids else [ids[0]] + InsertPart(x, ids[1..])
  }

  function SortParts(parts: seq<nat>): seq<nat> {
    if parts == [] then [] else InsertPart(parts[0], SortParts(parts[1..]))
  }

  lemma {:induction false} InsertPartIs(x: nat, ids: seq<nat>)
    requires Rising(ids)
    ensures Rising(InsertPart(x, ids)) && multiset(InsertPart(x, ids)) == multiset(ids) + multiset{x}
    ensures forall y :: y in InsertPart(x, ids) ==> y == x || y in ids
  {
    if ids != [] && x > ids[0] {
      InsertPartIs(x, ids[1..]);
      assert ids == [ids[0]] + ids[1..];
      RisingCons(ids[0], InsertPart(x, ids[1..]));
    } else {
      RisingCons(x, ids);
    }
  }

  lemma {:induction false} RisingCons(x: nat, ids: seq<nat>)
    requires Rising(ids) && forall y :: y in ids ==> x <= y
    ensures Rising([x] + ids)
  {
    forall j | 0 <= j < |ids|
      ensures x <= ids[j]
    {
      assert ids[j] in ids;
    }
  }

  lemma {:induction false} SortPartsIs(parts: seq<nat>)
    ensures Rising(SortParts(parts)) && multiset(SortParts(parts)) == multiset(parts)
  {
    if parts != [] {
      SortPartsIs(parts[1..]);
      InsertPartIs(parts[0], SortParts(parts[1..]));
      assert parts == [parts[0]] + parts[1..];
    }
  }

  // ---------------------------------------------------------------------
  // The read loop as a step system over the sorted IDs.
  // ---------------------------------------------------------------------

  datatype Loader = Loader(
    next: nat,                // IDs already handed to a read
    queue: seq<nat>,          // handed out and not yet merged, in order
    flying: multiset<nat>,    // reads that have not completed
    ready: set<nat>,          // completed ahead of their turn, by ID
    merged: seq<nat>)

  const IDLE: Loader := Loader(0, [], multiset{}, {}, [])

  function Hand(ids: seq<nat>, s: Loader): Loader
    requires s.next < |ids|
  {
    s.(next := s.next + 1, queue := s.queue + [ids[s.next]], flying := s.flying + multiset{ids[s.next]})
  }

  /** Starts reads while there is room for them. */
  function Launch(ids: seq<nat>, s: Loader): Loader
    decreases |ids| - s.next
  {
    if |s.flying| < MAX_IN_FLIGHT_SOURCE_PART_READS && s.next < |ids| then Launch(ids, Hand(ids, s)) else s
  }

  /** A read completes; a second one for the same ID replaces the first. */
  function Land(s: Loader, id: nat): Loader {
    s.(flying := s.flying - multiset{id}, ready := s.ready + {id})
  }

  function Pop(s: Loader): Loader
    requires s.queue != []
  {
    s.(queue := s.queue[1..], ready := s.ready - {s.queue[0]}, merged := s.merged + [s.queue[0]])
  }

  /** Merges completed parts at the head of the queue. */
  function Drain(s: Loader): Loader
    decreases |s.queue|
  {
    if s.queue != [] && s.queue[0] in s.ready then Drain(Pop(s)) else s
  }

  predicate Running(ids: seq<nat>, s: Loader) {
    s.flying != multiset{} || s.next < |ids|
  }

  /** One turn of the loop, in which the read of `id` completes. */
  function Turn(ids: seq<nat>, s: Loader, id: nat): Loader {
    Drain(Land(Launch(ids, s), id))
  }

  /** `lands` is a possible order of completions from `s` to `s'`. */
  ghost predicate Reaches(ids: seq<nat>, s: Loader, lands: seq<nat>, s': Loader)
    decreases |lands|
  {
    if lands == [] then s == s'
    else
      && Running(ids, s) && lands[0] in Launch(ids, s).flying
      && Reaches(ids, Turn(ids, s, lands[0]), lands[1..], s')
  }

  /** The loop has ended after the completions `lands`. */
  ghost predicate Ends(ids: seq<nat>, lands: seq<nat>, s: Loader) {
    Reaches(ids, IDLE, lands, s) && !Running(ids, s)
  }

  /** Only the smallest ID occurs more than once. */
  ghost predicate OnlyFirstRepeats(ids: seq<nat>) {
    forall i, j :: 0 <= i < j < |ids| && ids[i] == ids[j] ==> ids[i] == ids[0]
  }

  // ---------------------------------------------------------------------
  // With no other repetition, every order of completions merges all parts.
  // ---------------------------------------------------------------------

  /** Every queued part is being read or ready. */
  ghost predicate Booked(ids: seq<nat>, s: Loader) {
    && s.next <= |ids| && s.merged + s.queue == ids[..s.next]
    && s.flying + multiset(s.ready) == multiset(s.queue)
  }

  /** And the head of the queue is still being read. */
  ghost predicate Waiting(ids: seq<nat>, s: Loader) {
    Booked(ids, s) && (s.queue != [] ==> s.queue[0] !in s.ready)
  }

  lemma {:induction false} HandKeeps(ids: seq<nat>, s: Loader)
    requires Waiting(ids, s) && s.next < |ids|
    ensures Waiting(ids, Hand(ids, s))
  {
    var x := ids[s.next];
    assert ids[..s.next + 1] == ids[..s.next] + [x];
    assert s.merged + (s.queue + [x]) == (s.merged + s.queue) + [x];
    assert multiset(s.queue + [x]) == multiset(s.queue) + multiset{x};
    if s.queue == [] {
      assert multiset(s.ready) == multiset{};
      assert forall y :: y in s.ready ==> y in multiset(s.ready);
    }
  }

  lemma {:induction false} LaunchKeeps(ids: seq<nat>, s: Loader)
    requires Waiting(ids, s)
    ensures Waiting(ids, Launch(ids, s))
    decreases |ids| - s.next
  {
    if |s.flying| < MAX_IN_FLIGHT_SOURCE_PART_READS && s.next < |ids| {
      HandKeeps(ids, s);
      LaunchKeeps(ids, Hand(ids, s));
    }
  }

  /** An ID queued twice is the smallest, and at the head. */
  lemma {:induction false} TwiceIsHead(ids: seq<nat>, s: Loader, id: nat)
    requires Rising(ids) && OnlyFirstRepeats(ids) && s.next <= |ids| && s.merged + s.queue == ids[..s.next]
    requires multiset(s.queue)[id] >= 2
    ensures s.queue != [] && s.queue[0] == id
  {
    var i, j := TwoCopies(s.queue, id);
    var m := |s.merged|;
    assert ids[..s.next][m + i] == id && ids[..s.next][m + j] == id && ids[..s.next][m] == s.queue[0];
    assert ids[m + i] == ids[m + j];
    assert m > 0 ==> ids[0] <= ids[m];
    assert i > 0 ==> ids[m] <= ids[m + i];
  }

  /** So a read that completes is not ready yet. */
  lemma {:induction false} LandsFresh(ids: seq<nat>, s: Loader, id: nat)
    requires Rising(ids) && OnlyFirstRepeats(ids) && Waiting(ids, s) && id in s.flying
    ensures id !in s.ready
  {
    assert id in s.ready ==> multiset(s.queue)[id] >= 2;
    if multiset(s.queue)[id] >= 2 {
      TwiceIsHead(ids, s, id);
    }
  }

  lemma {:induction false} TwoCopies(q: seq<nat>, id: nat) returns (i: nat, j: nat)
    requires multiset(q)[id] >= 2
    ensures i < j < |q| && q[i] == id && q[j] == id
  {
    assert id in multiset(q);
    assert q == [q[0]] + q[1..];
    if q[0] == id {
      assert multiset(q[1..])[id] >= 1;
      assert id in q[1..];
      var k :| 0 <= k < |q[1..]| && q[1..][k] == id;
      i, j := 0, k + 1;
    } else {
      i, j := TwoCopies(q[1..], id);
      i, j := i + 1, j + 1;
    }
  }

  lemma {:induction false} LandKeeps(ids: seq<nat>, s: Loader, id: nat)
    requires Booked(ids, s) && id in s.flying && id !in s.ready
    ensures Booked(ids, Land(s, id))
  {
    assert multiset(s.ready + {id}) == multiset(s.ready) + multiset{id};
    assert (s.flying - multiset{id}) + multiset{id} == s.flying;
  }

  lemma {:induction false} PopKeeps(ids: seq<nat>, s: Loader)
    requires Booked(ids, s) && s.queue != [] && s.queue[0] in s.ready
    ensures Booked(ids, Pop(s))
  {
    var x, q := s.queue[0], s.queue[1..];
    assert s.queue == [x] + q;
    assert (s.merged + [x]) + q == s.merged + s.queue;
    assert multiset(s.ready) == multiset(s.ready - {x}) + multiset{x};
    assert multiset(s.queue) == multiset(q) + multiset{x};
    Cancel(s.flying + multiset(s.ready - {x}), multiset(q), x);
  }

  lemma {:induction false} DrainKeeps(ids: seq<nat>, s: Loader)
    requires Booked(ids, s)
    ensures Waiting(ids, Drain(s)) && Drain(s).next == s.next && Drain(s).flying == s.flying
    decreases |s.queue|
  {
    if s.queue != [] && s.queue[0] in s.ready {
      PopKeeps(ids, s);
      DrainKeeps(ids, Pop(s));
    }
  }

  lemma {:induction false} TurnKeeps(ids: seq<nat>, s: Loader, id: nat)
    requires Rising(ids) && OnlyFirstRepeats(ids) && Waiting(ids, s) && id in Launch(ids, s).flying
    ensures Waiting(ids, Turn(ids, s, id))
  {
    hide Waiting;
    LaunchKeeps(ids, s);
    LandsFresh(ids, Launch(ids, s), id);
    WaitingBooked(ids, Launch(ids, s));
    LandKeeps(ids, Launch(ids, s), id);
    DrainKeeps(ids, Land(Launch(ids, s), id));
  }

  lemma {:induction false} WaitingBooked(ids: seq<nat>, s: Loader)
    requires Waiting(ids, s)
    ensures Booked(ids, s)
  {
  }

  lemma {:induction false} HeadReady(q: seq<nat>, ready: set<nat>)
    requires q != [] && multiset(ready) == multiset(q)
    ensures q[0] in ready
  {
    assert q[0] in multiset(q);
    assert q[0] in multiset(ready);
  }

  /** When the loop is left, everything has been merged. */
  lemma {:induction false} WaitingDone(ids: seq<nat>, s: Loader)
    requires Waiting(ids, s) && !Running(ids, s)
    ensures s.merged == ids
  {
    assert multiset(s.ready) == multiset(s.queue);
    if s.queue != [] {
      HeadReady(s.queue, s.ready);
    }
    assert s.merged + [] == s.merged && ids[..s.next] == ids;
  }

  lemma {:induction false} RunKeeps(ids: seq<nat>, s: Loader, lands: seq<nat>, s': Loader)
    requires Rising(ids) && OnlyFirstRepeats(ids) && Waiting(ids, s) && Reaches(ids, s, lands, s')
    ensures Waiting(ids, s')
    decreases |lands|
  {
    hide Waiting;
    hide Turn;
    if lands != [] {
      TurnKeeps(ids, s, lands[0]);
      RunKeeps(ids, Turn(ids, s, lands[0]), lands[1..], s');
    }
  }

  // ---------------------------------------------------------------------
  // With another repetition, some order loses a part.
  // ---------------------------------------------------------------------

  /** One copy of the smallest ID is held back while everything else completes. */
  ghost predicate Held(ids: seq<nat>, s: Loader) {
    && 0 < s.next <= |ids| && s.merged + s.queue == ids[..s.next]
    && s.flying == multiset{ids[0]} && s.queue != [] && s.queue[0] == ids[0]
    && ids[0] !in s.queue[1..] && s.ready == Elems(s.queue[1..])
    && forall x :: x in s.merged ==> x == ids[0]
  }

  /** The next part is read and completes at once. */
  lemma {:induction false} HeldTurn(ids: seq<nat>, s: Loader)
    requires Rising(ids) && Held(ids, s) && s.next < |ids|
    ensures ids[s.next] in Launch(ids, s).flying
    ensures Held(ids, Turn(ids, s, ids[s.next])) && Turn(ids, s, ids[s.next]).next == s.next + 1
  {
    var x, y, h := ids[0], ids[s.next], Hand(ids, s);
    assert Launch(ids, s) == h;
    var l := Land(h, y);
    assert l.flying == multiset{x} + multiset{y} - multiset{y} == multiset{x};
    assert ids[..s.next + 1] == ids[..s.next] + [y];
    if y == x {
      HeadOnly(ids, s);
      assert l.queue == [x, x] && l.ready == {x};
      var p := Pop(l);
      assert p.queue == [x] && p.ready == {} && Drain(l) == Drain(p) == p;
      assert p.queue[1..] == [];
      assert s.merged + [x] + [x] == (s.merged + s.queue) + [x];
    } else {
      assert l.queue == s.queue + [y] && l.queue[1..] == s.queue[1..] + [y];
      assert Elems(l.queue[1..]) == Elems(s.queue[1..]) + {y};
      assert x !in l.ready && Drain(l) == l;
      assert s.merged + (s.queue + [y]) == (s.merged + s.queue) + [y];
    }
  }

  /** Copies of the smallest ID come before everything else. */
  lemma {:induction false} HeadOnly(ids: seq<nat>, s: Loader)
    requires Rising(ids) && Held(ids, s) && s.next < |ids| && ids[s.next] == ids[0]
    ensures s.queue == [ids[0]]
  {
    if |s.queue| > 1 {
      SecondIsFirst(ids, s);
    }
  }

  lemma {:induction false} SecondIsFirst(ids: seq<nat>, s: Loader)
    requires Rising(ids) && s.next < |ids| && ids[s.next] == ids[0]
    requires s.merged + s.queue == ids[..s.next] && |s.queue| > 1
    ensures ids[0] in s.queue[1..]
  {
    var m := |s.merged| + 1;
    assert ids[..s.next][m] == s.queue[1];
    assert ids[0] <= ids[m] <= ids[s.next];
    assert s.queue[1..][0] == s.queue[1];
  }

  lemma {:induction false} DrainBound(s: Loader)
    ensures |Drain(s).merged| <= |s.merged| + |s.ready| && Drain(s).next == s.next && Drain(s).flying == s.flying
    decreases |s.queue|
  {
    if s.queue != [] && s.queue[0] in s.ready {
      DrainBound(Pop(s));
    }
  }

  lemma {:induction false} RepeatedCard(q: seq<nat>, i: nat, j: nat)
    requires i < j < |q| && q[i] == q[j]
    ensures |Elems(q)| < |q|
    decreases |q|
  {
    var r := q[..j] + q[j + 1..];
    assert q == q[..j] + [q[j]] + q[j + 1..];
    assert r[i] == q[j];
    assert Elems(q) == Elems(r);
    ElemsBound(r);
  }

  lemma {:induction false} ElemsBound(q: seq<nat>)
    ensures |Elems(q)| <= |q|
  {
    if q == [] {
      assert Elems(q) == {};
    } else {
      ElemsBound(q[1..]);
      assert q == [q[0]] + q[1..];
      assert Elems(q) == {q[0]} + Elems(q[1..]);
    }
  }

  lemma {:induction false} AllSame(q: seq<nat>, x: nat, i: nat)
    requires i < |q| && forall y :: y in q ==> y == x
    ensures q[i] == x
  {
    assert q[i] in q;
  }

  /** The last turn releases the held part and merges at most one copy of each ID. */
  lemma {:induction false} HeldEnd(ids: seq<nat>, s: Loader, i: nat, j: nat)
    requires Held(ids, s) && s.next == |ids| && i < j < |ids| && ids[i] == ids[j] != ids[0]
    ensures ids[0] in Launch(ids, s).flying && Running(ids, s)
    ensures var e := Turn(ids, s, ids[0]); !Running(ids, e) && |e.merged| < |ids|
  {
    var x, l := ids[0], Land(s, ids[0]);
    assert Launch(ids, s) == s;
    DrainBound(l);
    hide Drain;
    assert ids[..s.next] == ids;
    assert s.queue == [x] + s.queue[1..];
    assert l.ready == Elems(s.queue);
    QueueRepeats(ids, s.merged, s.queue, i, j);
  }

  lemma {:induction false} QueueRepeats(ids: seq<nat>, merged: seq<nat>, queue: seq<nat>, i: nat, j: nat)
    requires merged + queue == ids && i < j < |ids| && ids[i] == ids[j] != ids[0]
    requires forall x :: x in merged ==> x == ids[0]
    ensures |Elems(queue)| < |queue|
  {
    var m := |merged|;
    if i < m {
      AllSame(merged, ids[0], i);
    }
    assert queue[i - m] == ids[i] && queue[j - m] == ids[j];
    RepeatedCard(queue, i - m, j - m);
  }

  lemma {:induction false} HeldLoses(ids: seq<nat>, s: Loader, i: nat, j: nat) returns (lands: seq<nat>, e: Loader)
    requires Rising(ids) && Held(ids, s) && i < j < |ids| && ids[i] == ids[j] != ids[0]
    ensures lands != [] && Reaches(ids, s, lands, e) && !Running(ids, e) && |e.merged| < |ids|
    decreases |ids| - s.next
  {
    if s.next == |ids| {
      HeldEnd(ids, s, i, j);
      lands, e := [ids[0]], Turn(ids, s, ids[0]);
      assert lands[1..] == [];
    } else {
      HeldTurn(ids, s);
      var rest;
      rest, e := HeldLoses(ids, Turn(ids, s, ids[s.next]), i, j);
      lands := [ids[s.next]] + rest;
      assert lands[1..] == rest;
    }
  }

  /** An order of completions that loses a part. */
  lemma {:induction false} LosingOrder(ids: seq<nat>, i: nat, j: nat) returns (lands: seq<nat>, e: Loader)
    requires Rising(ids) && i < j < |ids| && ids[i] == ids[j] != ids[0]
    ensures Ends(ids, lands, e) && |e.merged| < |ids|
  {
    var s := Hand(ids, IDLE);
    assert s.queue == [ids[0]] && s.queue[1..] == [] && ids[..1] == [ids[0]];
    assert Held(ids, s);
    lands, e := HeldLoses(ids, s, i, j);
    assert Launch(ids, IDLE) == Launch(ids, s);
    assert Turn(ids, IDLE, lands[0]) == Turn(ids, s, lands[0]);
  }

  lemma {:induction false} LaunchBound(ids: seq<nat>, s: Loader)
    requires |s.flying| <= 2
    ensures |Launch(ids, s).flying| <= 2
    decreases |ids| - s.next
  {
    if |s.flying| < MAX_IN_FLIGHT_SOURCE_PART_READS && s.next < |ids| {
      LaunchBound(ids, Hand(ids, s));
    }
  }

  /** Never more than two parts are being read. */
  lemma {:induction false} TwoInFlight(ids: seq<nat>, s: Loader, lands: seq<nat>, s': Loader)
    requires |s.flying| <= 2 && Reaches(ids, s, lands, s')
    ensures |s'.flying| <= 2 && |Launch(ids, s').flying| <= 2
    decreases |lands|
  {
    LaunchBound(ids, s);
    if lands != [] {
      var l := Land(Launch(ids, s), lands[0]);
      DrainBound(l);
      assert |l.flying| <= 2;
      hide Drain;
      hide Launch;
      TwoInFlight(ids, Turn(ids, s, lands[0]), lands[1..], s');
    }
  }

  /** The exact condition: in every order of completions all listed parts are merged in
      part-ID order, if and only if only the smallest ID is listed more than once. */
  lemma {:induction false} AllPartsIff(ids: seq<nat>)
    requires Rising(ids)
    ensures (forall lands, s :: Ends(ids, lands, s) ==> s.merged == ids) <==> OnlyFirstRepeats(ids)
  {
    if OnlyFirstRepeats(ids) {
      forall lands, s | Ends(ids, lands, s)
        ensures s.merged == ids
      {
        assert ids[..0] == [];
        RunKeeps(ids, IDLE, lands, s);
        WaitingDone(ids, s);
      }
    } else {
      var i, j :| 0 <= i < j < |ids| && ids[i] == ids[j] && ids[i] != ids[0];
      var lands, e := LosingOrder(ids, i, j);
      assert e.merged != ids;
    }
  }

  /** The shortest failing list: the part listed twice completes twice before the one
      in front of it. */
  lemma {:induction false} DuplicateIsLost(w: nat, x: nat)
    requires w < x
    ensures exists lands, s :: Ends([w, x, x], lands, s) && s.merged != [w, x, x]
  {
    var lands, e := LosingOrder([w, x, x], 1, 2);
    assert e.merged != [w, x, x];
  }

  // ---------------------------------------------------------------------
  // The loops
  // ---------------------------------------------------------------------

  method LaunchParts(ids: seq<nat>, s: Loader) returns (r: Loader)
    requires s.next <= |ids|
    ensures r == Launch(ids, s)
  {
    r := s;
    while |r.flying| < MAX_IN_FLIGHT_SOURCE_PART_READS && r.next < |ids|
      invariant r.next <= |ids| && Launch(ids, r) == Launch(ids, s)
      decreases |ids| - r.next
    {
      r := Hand(ids, r);
    }
  }

  /** What has been read was there, and everything handed out is being read or has been
      read. */
  ghost predicate Sound(read: PartSource, ids: seq<nat>, s: Loader) {
    && s.next <= |ids| && Stored(read, s.merged) && (forall x :: x in s.ready ==> read(Some(x)).Some?)
    && (forall i :: 0 <= i < s.next ==> ids[i] in s.flying || read(Some(ids[i])).Some?)
    && (forall x :: x in s.flying ==> x in ids)
  }

  /** Merges the completed parts at the head of the queue. */
  method DrainParts(read: PartSource, ids: seq<nat>, s: Loader, acc: ReadResult) returns (r: Loader, acc': ReadResult)
    requires Sound(read, ids, s) && acc == Merged(read, s.merged)
    ensures r == Drain(s) && Sound(read, ids, r) && acc' == Merged(read, r.merged)
  {
    r, acc' := s, acc;
    SoundStored(read, ids, s);
    hide Sound;
    hide Drain;
    hide Merged;
    while r.queue != [] && r.queue[0] in r.ready
      invariant Sound(read, ids, r) && Stored(read, r.merged) && Drain(r) == Drain(s) && acc' == Merged(read, r.merged)
      decreases |r.queue|
    {
      PopSound(read, ids, r);
      acc' := Extended(acc', read(Some(r.queue[0])).value, |r.merged| == 0);
      r := Pop(r);
    }
    DrainDone(r);
  }

  lemma {:induction false} PopSound(read: PartSource, ids: seq<nat>, s: Loader)
    requires Sound(read, ids, s) && s.queue != [] && s.queue[0] in s.ready
    ensures Sound(read, ids, Pop(s)) && Drain(Pop(s)) == Drain(s) && read(Some(s.queue[0])).Some?
    ensures Stored(read, s.merged) && Stored(read, Pop(s).merged)
    ensures Merged(read, Pop(s).merged) == Extended(Merged(read, s.merged), read(Some(s.queue[0])).value, |s.merged| == 0)
  {
    assert Pop(s).merged[..|s.merged|] == s.merged;
  }

  lemma {:induction false} DrainDone(s: Loader)
    requires s.queue == [] || s.queue[0] !in s.ready
    ensures Drain(s) == s
  {
  }

  lemma {:induction false} LaunchSound(read: PartSource, ids: seq<nat>, s: Loader)
    requires Sound(read, ids, s)
    ensures Sound(read, ids, Launch(ids, s)) && Launch(ids, s).merged == s.merged
    ensures Running(ids, s) ==> Launch(ids, s).flying != multiset{}
    ensures 2 * (|ids| - Launch(ids, s).next) + |Launch(ids, s).flying| <= 2 * (|ids| - s.next) + |s.flying|
    decreases |ids| - s.next
  {
    if |s.flying| < MAX_IN_FLIGHT_SOURCE_PART_READS && s.next < |ids| {
      var h := Hand(ids, s);
      assert ids[s.next] in ids && ids[s.next] in h.flying;
      LaunchSound(read, ids, h);
    }
  }

  lemma {:induction false} LandSound(read: PartSource, ids: seq<nat>, s: Loader, id: nat)
    requires Sound(read, ids, s) && id in s.flying && read(Some(id)).Some?
    ensures Sound(read, ids, Land(s, id)) && |Land(s, id).flying| < |s.flying|
  {
    assert |s.flying - multiset{id}| == |s.flying| - 1;
  }

  /** The read loop over the sorted part IDs: an error exactly if a listed part is
      missing, and otherwise the merge of what some order of completions merges. */
  method MergeParts(read: PartSource, ids: seq<nat>) returns (r: Answer, ghost lands: seq<nat>, ghost end: Loader)
    ensures r == MissingPart <==> !Stored(read, ids)
    ensures r != MissingPart ==>
      && Ends(ids, lands, end) && Stored(read, end.merged)
      && r == Ok(Some(Merged(read, end.merged))) && IsMerge(read, end.merged, r.result.value)
  {
    hide IsMerge;
    hide Sound;
    hide Launch;
    hide Land;
    hide Drain;
    hide Merged;
    var s, acc := IDLE, ReadResult([], 0, 0, []);
    lands, end := [], IDLE;
    Initially(read, ids);
    while Running(ids, s)
      invariant Sound(read, ids, s) && s.next <= |ids| && Stored(read, s.merged) && acc == Merged(read, s.merged)
      invariant Reaches(ids, IDLE, lands, s)
      decreases 2 * (|ids| - s.next) + |s.flying|
    {
      ghost var s0 := s;
      LaunchSound(read, ids, s);
      s := LaunchParts(ids, s);
      var part :| part in s.flying;
      if read(Some(part)).None? {
        MissingListed(read, ids, s, part);
        return MissingPart, lands, s;
      }
      LandSound(read, ids, s, part);
      LandNext(s, part);
      s := Land(s, part);
      DrainNext(s);
      s, acc := DrainParts(read, ids, s, acc);
      SoundStored(read, ids, s);
      Snoc(ids, IDLE, lands, s0, part);
      lands := lands + [part];
    }
    end := s;
    AllRead(read, ids, s);
    MergedIs(read, s.merged);
    r := Ok(Some(acc));
  }

  lemma {:induction false} Initially(read: PartSource, ids: seq<nat>)
    ensures Sound(read, ids, IDLE) && Stored(read, []) && Merged(read, []) == ReadResult([], 0, 0, [])
  {
  }

  lemma {:induction false} LandNext(s: Loader, id: nat)
    ensures Land(s, id).next == s.next && Land(s, id).merged == s.merged
  {
  }

  lemma {:induction false} DrainNext(s: Loader)
    ensures Drain(s).next == s.next && Drain(s).flying == s.flying
  {
    DrainBound(s);
  }

  lemma {:induction false} SoundStored(read: PartSource, ids: seq<nat>, s: Loader)
    requires Sound(read, ids, s)
    ensures s.next <= |ids| && Stored(read, s.merged)
  {
  }

  lemma {:induction false} MissingListed(read: PartSource, ids: seq<nat>, s: Loader, part: nat)
    requires Sound(read, ids, s) && part in s.flying && read(Some(part)).None?
    ensures !Stored(read, ids)
  {
    assert part in ids;
    var i :| 0 <= i < |ids| && ids[i] == part;
  }

  lemma {:induction false} AllRead(read: PartSource, ids: seq<nat>, s: Loader)
    requires Sound(read, ids, s) && !Running(ids, s)
    ensures Stored(read, ids)
  {
  }

  lemma {:induction false} Snoc(ids: seq<nat>, a: Loader, lands: seq<nat>, s: Loader, id: nat)
    requires Reaches(ids, a, lands, s) && Running(ids, s) && id in Launch(ids, s).flying
    ensures Reaches(ids, a, lands + [id], Turn(ids, s, id))
    decreases |lands|
  {
    hide Turn;
    if lands == [] {
      assert [] + [id] == [id] && [id][1..] == [];
      assert Reaches(ids, Turn(ids, s, id), [], Turn(ids, s, id));
    } else {
      assert (lands + [id])[1..] == lands[1..] + [id];
      Snoc(ids, Turn(ids, a, lands[0]), lands[1..], s, id);
    }
  }

  /** `read_logical_batch`, for any list of part IDs: a batch without parts is read
      whole; an error exactly if a listed part is missing; otherwise, if only the
      smallest ID is listed more than once, all parts in part-ID order, whatever the
      order of completions. */
  method ReadLogicalBatch(read: PartSource, parts: seq<nat>) returns (r: Answer)
    ensures parts == [] ==> r == Ok(read(None))
    ensures parts != [] ==> (r == MissingPart <==> !Stored(read, parts))
    ensures parts != [] && r != MissingPart && OnlyFirstRepeats(SortParts(parts)) ==>
      && Rising(SortParts(parts)) && multiset(SortParts(parts)) == multiset(parts) && Stored(read, SortParts(parts))
      && r.Ok? && r.result.Some? && IsMerge(read, SortParts(parts), r.result.value)
  {
    hide IsMerge;
    if parts == [] {
      return Ok(read(None));
    }
    var ids := SortParts(parts);
    SortPartsIs(parts);
    StoredSame(read, parts, ids);
    ghost var lands, end;
    r, lands, end := MergeParts(read, ids);
    AllPartsIff(ids);
  }

  lemma {:induction false} StoredSame(read: PartSource, parts: seq<nat>, ids: seq<nat>)
    requires multiset(ids) == multiset(parts)
    ensures Stored(read, ids) <==> Stored(read, parts)
  {
    if Stored(read, parts) {
      StoredBy(read, parts, ids);
    }
    if Stored(read, ids) {
      StoredBy(read, ids, parts);
    }
  }

  lemma {:induction false} StoredBy(read: PartSource, a: seq<nat>, b: seq<nat>)
    requires multiset(a) == multiset(b) && Stored(read, a)
    ensures Stored(read, b)
  {
    forall i | 0 <= i < |b|
      ensures read(Some(b[i])).Some?
    {
      assert b[i] in multiset(a);
      var j :| 0 <= j < |a| && a[j] == b[i];
    }
  }
}
