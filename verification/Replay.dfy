/** From record batches to sink writes: splitting by operation, chunking, and
    what concurrent chunk writes do to the target table.  The target is observed
    one key at a time, as the bag of rows that key has. */
module Replay {
  import opened Prelude
  import opened Records
  import opened Coalesce

  datatype InsertOp = Insert | Update | Delete

  /** Which bookkeeping columns a table's batches have, and whether its dataset was
      generated with updates or deletes at all. */
  datatype Schema = Schema(hasOp: bool, hasIndex: bool, mutating: bool)

  function ToOp(op: string): InsertOp {
    if op == "u" then Update else if op == "d" then Delete else Insert
  }

  function RowOp(sc: Schema, row: Row): InsertOp {
    if sc.hasOp then ToOp(row.op) else Insert
  }

  // ---------------------------------------------------------------------
  // Reference meaning: source rows applied one by one.
  // ---------------------------------------------------------------------

  type Bag = multiset<Val>

  function Copies(v: Val, n: nat): (b: Bag)
    ensures |b| == n
  {
    var none: Bag := multiset{};
    none[v := n]
  }

  /** An insert adds a row, an update overwrites all rows of its key, a delete
      removes them. */
  function RowEffect(op: InsertOp, row: Row, k: Key, b: Bag): Bag {
    if row.key != k then b
    else match op
      case Insert => b + multiset{row.val}
      case Update => Copies(row.val, |b|)
      case Delete => multiset{}
  }

  /** The row's `_op` text is `op`. */
  predicate Says(sc: Schema, row: Row, op: string) {
    sc.hasOp && row.op == op
  }

  /** The row is neither an update nor a delete. */
  predicate Plain(sc: Schema, row: Row) {
    !Says(sc, row, "u") && !Says(sc, row, "d")
  }

  /** What one source row, as its `_op` text says, does to a key. */
  function TextEffect(sc: Schema, row: Row, k: Key, b: Bag): Bag {
    if row.key != k then b
    else if Says(sc, row, "u") then Copies(row.val, |b|)
    else if Says(sc, row, "d") then multiset{}
    else b + multiset{row.val}
  }

  /** The source rows applied one by one. */
  function Fold(sc: Schema, rows: seq<Row>, k: Key, b: Bag): Bag {
    if rows == [] then b else Fold(sc, rows[1..], k, TextEffect(sc, rows[0], k, b))
  }

  function FoldOp(op: InsertOp, rows: seq<Row>, k: Key, b: Bag): Bag {
    if rows == [] then b else FoldOp(op, rows[1..], k, RowEffect(op, rows[0], k, b))
  }

  lemma {:induction false} FoldAppend(sc: Schema, xs: seq<Row>, ys: seq<Row>, k: Key, b: Bag)
    ensures Fold(sc, xs + ys, k, b) == Fold(sc, ys, k, Fold(sc, xs, k, b))
    decreases |xs|
  {
    if xs == [] {
      assert xs + ys == ys;
    } else {
      assert (xs + ys)[1..] == xs[1..] + ys;
      FoldAppend(sc, xs[1..], ys, k, TextEffect(sc, xs[0], k, b));
    }
  }

  lemma {:induction false} FoldUniform(sc: Schema, op: InsertOp, rows: seq<Row>, k: Key, b: Bag)
    requires forall r :: r in rows ==> RowOp(sc, r) == op
    ensures Fold(sc, rows, k, b) == FoldOp(op, rows, k, b)
    decreases |rows|
  {
    if rows != [] {
      assert rows[0] in rows;
      FoldUniform(sc, op, rows[1..], k, RowEffect(op, rows[0], k, b));
    }
  }

  // ---------------------------------------------------------------------
  // Splitting a batch by operation.
  // ---------------------------------------------------------------------

  datatype OpSegment = OpSegment(op: InsertOp, rows: seq<Row>)

  function RunLen(rows: seq<Row>, op: string): (n: nat)
    ensures n <= |rows|
  {
    if rows == [] || rows[0].op != op then 0 else 1 + RunLen(rows[1..], op)
  }

  /** Maximal runs of equal `_op`. */
  function Runs(rows: seq<Row>): seq<OpSegment>
    decreases |rows|
  {
    if rows == [] then [] else
      var n := RunLen(rows, rows[0].op);
      [OpSegment(ToOp(rows[0].op), rows[..n])] + Runs(rows[n..])
  }

  /** The segment's rows share one `_op` text, and its operation is what that says. */
  ghost predicate Uniform(seg: OpSegment) {
    && seg.rows != []
    && (forall i, j :: 0 <= i < j < |seg.rows| ==> seg.rows[i].op == seg.rows[j].op)
    && (seg.op == Update <==> seg.rows[0].op == "u")
    && (seg.op == Delete <==> seg.rows[0].op == "d")
  }

  function OpText(seg: OpSegment): string {
    if seg.rows == [] then "" else seg.rows[0].op
  }

  /** The rows of a list of segments. */
  function SegmentRows(segs: seq<OpSegment>): seq<Row> {
    if segs == [] then [] else segs[0].rows + SegmentRows(segs[1..])
  }

  /** Each segment is of one operation, and neighbours have different `_op` texts. */
  ghost predicate Maximal(segs: seq<OpSegment>) {
    && (forall i :: 0 <= i < |segs| ==> Uniform(segs[i]))
    && (forall i, j :: 0 <= i < j < |segs| && j == i + 1 ==> OpText(segs[i]) != OpText(segs[j]))
  }

  lemma {:induction false} MaximalCons(seg: OpSegment, segs: seq<OpSegment>)
    requires Uniform(seg) && Maximal(segs) && (segs != [] ==> OpText(seg) != OpText(segs[0]))
    ensures Maximal([seg] + segs)
  {
    hide Uniform;
    hide OpText;
  }

  /** What splitting by operation is for: the segments concatenate to the rows and are
      the maximal runs of one operation. */
  lemma {:induction false} RunsAreMaximal(rows: seq<Row>)
    ensures SegmentRows(Runs(rows)) == rows && Maximal(Runs(rows))
    ensures rows != [] ==> Runs(rows) != [] && OpText(Runs(rows)[0]) == rows[0].op
    decreases |rows|
  {
    if rows != [] {
      var n := RunLen(rows, rows[0].op);
      RunOps(rows, rows[0].op);
      RunStops(rows, rows[0].op);
      RunsCons(rows);
      RunsAreMaximal(rows[n..]);
      var seg := OpSegment(ToOp(rows[0].op), rows[..n]);
      hide Runs;
      hide RunLen;
      hide Maximal;
      assert Uniform(seg);
      MaximalCons(seg, Runs(rows[n..]));
      assert ([seg] + Runs(rows[n..]))[1..] == Runs(rows[n..]);
      assert rows == rows[..n] + rows[n..];
    }
  }

  lemma {:induction false} RunStops(rows: seq<Row>, op: string)
    ensures RunLen(rows, op) < |rows| ==> rows[RunLen(rows, op)].op != op
  {
    if rows != [] && rows[0].op == op {
      RunStops(rows[1..], op);
    }
  }

  lemma {:induction false} RunIs(rows: seq<Row>, op: string, n: nat)
    requires n <= |rows| && (forall i :: 0 <= i < n ==> rows[i].op == op)
    requires n == |rows| || rows[n].op != op
    ensures RunLen(rows, op) == n
    decreases n
  {
    if n > 0 {
      RunIs(rows[1..], op, n - 1);
    }
  }

  lemma {:induction false} RunOps(rows: seq<Row>, op: string)
    ensures forall i :: 0 <= i < RunLen(rows, op) ==> rows[i].op == op
  {
    if rows != [] && rows[0].op == op {
      RunOps(rows[1..], op);
    }
  }

  /** The walk of `split_batch_by_op` over the sorted rows. */
  method SplitByOp(rows: seq<Row>) returns (segments: seq<OpSegment>)
    ensures segments == Runs(rows)
    ensures SegmentRows(segments) == rows && Maximal(segments)
  {
    RunsAreMaximal(rows);
    hide Maximal, SegmentRows;
    segments := [];
    if rows == [] {
      return;
    }
    hide SplitUpto;
    var runStart, currentOp := 0, rows[0].op;
    SplitBegins(rows);
    var i := 1;
    while i < |rows|
      invariant 0 <= runStart < i <= |rows|
      invariant forall j :: runStart <= j < i ==> rows[j].op == currentOp
      invariant SplitUpto(rows, runStart, segments)
    {
      if rows[i].op != currentOp {
        SplitRun(rows, runStart, i, currentOp, segments);
        segments := segments + [OpSegment(ToOp(currentOp), rows[runStart..i])];
        runStart, currentOp := i, rows[i].op;
      }
      i := i + 1;
    }
    SplitRun(rows, runStart, |rows|, currentOp, segments);
    assert rows[runStart..|rows|] == rows[runStart..];
    segments := segments + [OpSegment(ToOp(currentOp), rows[runStart..])];
    SplitEnds(rows, segments);
  }

  /** The segments of the rows before `start`. */
  ghost predicate SplitUpto(rows: seq<Row>, start: nat, segments: seq<OpSegment>) {
    start <= |rows| && segments + Runs(rows[start..]) == Runs(rows)
  }

  lemma {:induction false} SplitBegins(rows: seq<Row>)
    ensures SplitUpto(rows, 0, [])
  {
    assert rows[0..] == rows;
    assert [] + Runs(rows) == Runs(rows);
  }

  lemma {:induction false} SplitRun(rows: seq<Row>, start: nat, i: nat, op: string, segments: seq<OpSegment>)
    requires SplitUpto(rows, start, segments)
    requires start < i <= |rows| && (forall j :: start <= j < i ==> rows[j].op == op)
    requires i == |rows| || rows[i].op != op
    ensures SplitUpto(rows, i, segments + [OpSegment(ToOp(op), rows[start..i])])
  {
    RunSplit(rows, start, i, op);
    hide Runs;
    Associate(segments, [OpSegment(ToOp(op), rows[start..i])], Runs(rows[i..]));
  }

  lemma {:induction false} Associate<T>(a: seq<T>, b: seq<T>, c: seq<T>)
    ensures a + (b + c) == (a + b) + c
  {
  }

  lemma {:induction false} SplitEnds(rows: seq<Row>, segments: seq<OpSegment>)
    requires SplitUpto(rows, |rows|, segments)
    ensures segments == Runs(rows)
  {
    assert rows[|rows|..] == [];
    assert segments + [] == segments;
  }

  /** The run that starts at `start` ends at `i`. */
  lemma {:induction false} RunSplit(rows: seq<Row>, start: nat, i: nat, op: string)
    requires start < i <= |rows| && (forall j :: start <= j < i ==> rows[j].op == op)
    requires i == |rows| || rows[i].op != op
    ensures Runs(rows[start..]) == [OpSegment(ToOp(op), rows[start..i])] + Runs(rows[i..])
  {
    var tail := rows[start..];
    RunIs(tail, op, i - start);
    assert tail[..i - start] == rows[start..i] && tail[i - start..] == rows[i..];
  }

  /** Any sort of rows by `_op_index`. */
  ghost predicate IsSort(s: seq<Row>, rows: seq<Row>) {
    multiset(s) == multiset(rows) && forall i, j :: 0 <= i < j < |s| ==> s[i].opIndex <= s[j].opIndex
  }

  ghost predicate Sorts(sort: seq<Row> -> seq<Row>) {
    forall rows :: IsSort(sort(rows), rows)
  }

  /** The index never decreases, and only identical rows share one. */
  ghost predicate TightIndex(rows: seq<Row>) {
    forall i, j :: 0 <= i < j < |rows| ==> rows[i].opIndex < rows[j].opIndex || rows[i] == rows[j]
  }

  /** Such rows are left as they are by any sort. */
  lemma {:induction false} SortIsIdentity(s: seq<Row>, rows: seq<Row>)
    requires IsSort(s, rows) && TightIndex(rows)
    ensures s == rows
  {
    if rows == [] {
      assert |s| == |multiset(s)| == 0;
    } else {
      SortHead(s, rows);
      SortTail(s, rows);
      SortIsIdentity(s[1..], rows[1..]);
      assert s == [s[0]] + s[1..] && rows == [rows[0]] + rows[1..];
    }
  }

  /** And only such rows: any other list has a sort that differs from it. */
  lemma {:induction false} SortFixedIff(sort: seq<Row> -> seq<Row>, rows: seq<Row>)
    requires Sorts(sort)
    ensures (forall s :: IsSort(s, rows) ==> s == rows) <==> TightIndex(rows)
  {
    if TightIndex(rows) {
      forall s | IsSort(s, rows)
        ensures s == rows
      {
        SortIsIdentity(s, rows);
      }
    }
    if forall s :: IsSort(s, rows) ==> s == rows {
      assert IsSort(sort(rows), rows);
      forall i, j | 0 <= i < j < |rows|
        ensures rows[i].opIndex < rows[j].opIndex || rows[i] == rows[j]
      {
        assert rows[i].opIndex <= rows[j].opIndex;
        if rows[i].opIndex == rows[j].opIndex {
          SwapIsSort(rows, i, j);
          assert Swapped(rows, i, j)[i] == rows[j];
        }
      }
    }
  }

  function Swapped(rows: seq<Row>, i: nat, j: nat): seq<Row>
    requires i < j < |rows|
  {
    rows[..i] + [rows[j]] + rows[i + 1..j] + [rows[i]] + rows[j + 1..]
  }

  lemma {:induction false} SwapIsSort(rows: seq<Row>, i: nat, j: nat)
    requires i < j < |rows| && IsSort(rows, rows) && rows[i].opIndex == rows[j].opIndex
    ensures IsSort(Swapped(rows, i, j), rows)
  {
    var s := Swapped(rows, i, j);
    assert rows == rows[..i] + [rows[i]] + rows[i + 1..j] + [rows[j]] + rows[j + 1..];
    assert |s| == |rows| && forall m :: 0 <= m < |s| ==> s[m].opIndex == rows[m].opIndex;
  }

  lemma {:induction false} SortTail(s: seq<Row>, rows: seq<Row>)
    requires IsSort(s, rows) && TightIndex(rows) && s != [] && rows != [] && s[0] == rows[0]
    ensures IsSort(s[1..], rows[1..]) && TightIndex(rows[1..])
  {
    assert forall i, j :: 0 <= i < j < |s[1..]| ==> s[1..][i] == s[i + 1] && s[1..][j] == s[j + 1];
    SameTail(s, rows);
  }

  lemma {:induction false} SameTail<T>(s: seq<T>, rows: seq<T>)
    requires multiset(s) == multiset(rows) && s != [] && rows != [] && s[0] == rows[0]
    ensures multiset(s[1..]) == multiset(rows[1..])
  {
    Headed(s);
    Headed(rows);
    Cancel(multiset(s[1..]), multiset(rows[1..]), s[0]);
  }

  lemma {:induction false} Headed<T>(s: seq<T>)
    requires s != []
    ensures multiset(s) == multiset(s[1..]) + multiset{s[0]}
  {
    assert s == [s[0]] + s[1..];
  }

  lemma {:induction false} SortHead(s: seq<Row>, rows: seq<Row>)
    requires IsSort(s, rows) && TightIndex(rows) && rows != []
    ensures s != [] && s[0] == rows[0]
  {
    assert |s| == |multiset(s)| == |multiset(rows)| == |rows|;
    assert rows[0] in multiset(rows) && s[0] in multiset(s);
    var i :| 0 <= i < |s| && s[i] == rows[0];
    var j :| 0 <= j < |rows| && rows[j] == s[0];
  }

  predicate InsertOnly(sc: Schema, batch: RecordBatch) {
    !sc.mutating || !sc.hasOp || forall i :: 0 <= i < |batch| ==> batch[i].op == "c"
  }

  function Segments(sc: Schema, sort: seq<Row> -> seq<Row>, batch: RecordBatch): seq<OpSegment> {
    if InsertOnly(sc, batch) then [OpSegment(Insert, batch)]
    else Runs(if sc.hasIndex then sort(batch) else batch)
  }

  /** The fast path: one insert of the whole batch, taken exactly if the table is not
      mutating, there is no operation column or every row says "c".  Otherwise the
      sorted rows are cut into maximal runs. */
  lemma {:induction false} SegmentsAre(sc: Schema, sort: seq<Row> -> seq<Row>, batch: RecordBatch)
    ensures var segs := Segments(sc, sort, batch);
      if !sc.mutating || !sc.hasOp || forall r :: r in batch ==> r.op == "c" then segs == [OpSegment(Insert, batch)]
      else Maximal(segs) && SegmentRows(segs) == if sc.hasIndex then sort(batch) else batch
  {
    RunsAreMaximal(batch);
    RunsAreMaximal(sort(batch));
    hide Maximal, SegmentRows, Runs;
    assert (forall i :: 0 <= i < |batch| ==> batch[i].op == "c") <==> (forall r :: r in batch ==> r.op == "c");
  }

  // ---------------------------------------------------------------------
  // Concurrent chunk writes.
  // ---------------------------------------------------------------------

  /** A segment is split only when chunking is on and it is too long. */
  function Chunks(size: nat, rows: seq<Row>): seq<seq<Row>> {
    if 0 < size < |rows| then Chop(size, rows) else [rows]
  }

  lemma {:induction false} ChunksFlat(size: nat, rows: seq<Row>)
    ensures Flat(Chunks(size, rows)) == rows
  {
    if 0 < size < |rows| {
      ChopFlat(size, rows);
    } else {
      FlatSingle(rows);
    }
  }

  /** With chunking on no chunk is longer than the chunk size; with it off there is one
      chunk. */
  lemma {:induction false} ChunkSizes(size: nat, rows: seq<Row>)
    ensures 0 < size ==> forall c :: c in Chunks(size, rows) ==> |c| <= size
    ensures size == 0 ==> Chunks(size, rows) == [rows]
  {
    if 0 < size < |rows| {
      ChopFlat(size, rows);
    }
  }

  predicate HasKey(rows: seq<Row>, k: Key) {
    exists r :: r in rows && r.key == k
  }

  function Vals(rows: seq<Row>, k: Key): Bag {
    if rows == [] then multiset{}
    else (if rows[0].key == k then multiset{rows[0].val} else multiset{}) + Vals(rows[1..], k)
  }

  /** One statement of the sink on a whole chunk.  If several rows of an update
      chunk match a key, the sink may take any one of them. */
  ghost predicate ChunkWrites(op: InsertOp, chunk: seq<Row>, k: Key, b: Bag, b': Bag) {
    match op
    case Insert => b' == b + Vals(chunk, k)
    case Delete => b' == if HasKey(chunk, k) then multiset{} else b
    case Update =>
      if HasKey(chunk, k) then exists r :: r in chunk && r.key == k && b' == Copies(r.val, |b|) else b' == b
  }

  /** The chunks are written one after the other in the order given. */
  ghost predicate WritesAll(op: InsertOp, order: seq<seq<Row>>, k: Key, b: Bag, b': Bag)
    decreases |order|
  {
    if order == [] then b == b'
    else exists m :: ChunkWrites(op, order[0], k, b, m) && WritesAll(op, order[1..], k, m, b')
  }

  /** The chunks of a segment complete in any order. */
  ghost predicate SegmentWrites(size: nat, seg: OpSegment, k: Key, b: Bag, b': Bag) {
    exists order :: multiset(order) == multiset(Chunks(size, seg.rows)) && WritesAll(seg.op, order, k, b, b')
  }

  ghost predicate SegmentsWrite(size: nat, segs: seq<OpSegment>, k: Key, b: Bag, b': Bag)
    decreases |segs|
  {
    if segs == [] then b == b'
    else exists m :: SegmentWrites(size, segs[0], k, b, m) && SegmentsWrite(size, segs[1..], k, m, b')
  }

  /** The coalesced batches of a table are written in order. */
  ghost predicate BatchesWrite(sc: Schema, sort: seq<Row> -> seq<Row>, size: nat, batches: seq<RecordBatch>, k: Key, b: Bag, b': Bag)
    decreases |batches|
  {
    if batches == [] then b == b'
    else exists m :: SegmentsWrite(size, Segments(sc, sort, batches[0]), k, b, m) &&
                     BatchesWrite(sc, sort, size, batches[1..], k, m, b')
  }

  // ---------------------------------------------------------------------
  // Closed form of a run of one operation.
  // ---------------------------------------------------------------------

  function LastVal(rows: seq<Row>, k: Key): Val
    requires HasKey(rows, k)
  {
    var n := |rows| - 1;
    if rows[n].key == k then rows[n].val else
      assert HasKey(rows[..n], k) by {
        var r :| r in rows && r.key == k;
        assert rows == rows[..n] + [rows[n]];
        assert r in rows[..n];
      }
      LastVal(rows[..n], k)
  }

  function Closed(op: InsertOp, rows: seq<Row>, k: Key, b: Bag): Bag {
    match op
    case Insert => b + Vals(rows, k)
    case Delete => if HasKey(rows, k) then multiset{} else b
    case Update => if HasKey(rows, k) then Copies(LastVal(rows, k), |b|) else b
  }

  /** At most one value per key. */
  ghost predicate OneVal(rows: seq<Row>, k: Key) {
    forall r, q :: r in rows && q in rows && r.key == k && q.key == k ==> r.val == q.val
  }

  lemma {:induction false} LastValIn(rows: seq<Row>, k: Key)
    requires HasKey(rows, k)
    ensures exists r :: r in rows && r.key == k && r.val == LastVal(rows, k)
    decreases |rows|
  {
    var n := |rows| - 1;
    assert rows[n] in rows;
    if rows[n].key != k {
      var r :| r in rows && r.key == k;
      assert rows == rows[..n] + [rows[n]];
      assert r in rows[..n];
      LastValIn(rows[..n], k);
    }
  }

  lemma {:induction false} ValsAppend(xs: seq<Row>, ys: seq<Row>, k: Key)
    ensures Vals(xs + ys, k) == Vals(xs, k) + Vals(ys, k)
  {
    if xs == [] {
      assert xs + ys == ys;
    } else {
      assert (xs + ys)[1..] == xs[1..] + ys;
      ValsAppend(xs[1..], ys, k);
    }
  }

  lemma {:induction false} LastValAppend(xs: seq<Row>, ys: seq<Row>, k: Key)
    requires HasKey(xs + ys, k)
    ensures HasKey(ys, k) ==> LastVal(xs + ys, k) == LastVal(ys, k)
    ensures !HasKey(ys, k) ==> HasKey(xs, k) && LastVal(xs + ys, k) == LastVal(xs, k)
    decreases |ys|
  {
    if ys == [] {
      assert xs + ys == xs;
    } else {
      var n := |ys| - 1;
      var z := ys[n];
      assert z in ys;
      assert (xs + ys)[..|xs + ys| - 1] == xs + ys[..n];
      assert ys == ys[..n] + [z];
      assert forall r :: r in ys <==> r in ys[..n] || r == z;
      assert forall r :: r in xs + ys <==> r in xs + ys[..n] || r == z;
      if z.key != k {
        assert HasKey(ys, k) <==> HasKey(ys[..n], k);
        assert HasKey(xs + ys[..n], k);
        LastValAppend(xs, ys[..n], k);
      }
    }
  }

  lemma {:induction false} ClosedAppend(op: InsertOp, xs: seq<Row>, ys: seq<Row>, k: Key, b: Bag)
    ensures Closed(op, xs + ys, k, b) == Closed(op, ys, k, Closed(op, xs, k, b))
  {
    assert forall r :: r in xs + ys <==> r in xs || r in ys;
    assert HasKey(xs + ys, k) <==> HasKey(xs, k) || HasKey(ys, k);
    match op
    case Insert => ValsAppend(xs, ys, k);
    case Delete =>
    case Update =>
      if HasKey(xs + ys, k) {
        LastValAppend(xs, ys, k);
      }
  }

  lemma {:induction false} ClosedOne(op: InsertOp, row: Row, k: Key, b: Bag)
    ensures Closed(op, [row], k, b) == RowEffect(op, row, k, b)
  {
    assert row in [row];
    assert [row][1..] == [];
    assert HasKey([row], k) <==> row.key == k;
    assert Vals([row], k) == (if row.key == k then multiset{row.val} else multiset{}) + Vals([], k);
  }

  lemma {:induction false} ClosedNone(op: InsertOp, k: Key, b: Bag)
    ensures Closed(op, [], k, b) == b
  {
  }

  /** Applying the rows of one operation one by one. */
  lemma {:induction false} FoldIsClosed(op: InsertOp, rows: seq<Row>, k: Key, b: Bag)
    ensures FoldOp(op, rows, k, b) == Closed(op, rows, k, b)
    decreases |rows|
  {
    if rows == [] {
      ClosedNone(op, k, b);
    } else {
      var b1 := RowEffect(op, rows[0], k, b);
      FoldIsClosed(op, rows[1..], k, b1);
      ClosedOne(op, rows[0], k, b);
      ClosedAppend(op, [rows[0]], rows[1..], k, b);
      assert rows == [rows[0]] + rows[1..];
    }
  }

  lemma {:induction false} ChunkIsClosed(op: InsertOp, chunk: seq<Row>, k: Key, b: Bag, b': Bag)
    requires ChunkWrites(op, chunk, k, b, b') && (op == Update ==> OneVal(chunk, k))
    ensures b' == Closed(op, chunk, k, b)
  {
    if op == Update && HasKey(chunk, k) {
      LastValIn(chunk, k);
      var r :| r in chunk && r.key == k && b' == Copies(r.val, |b|);
      var q :| q in chunk && q.key == k && q.val == LastVal(chunk, k);
    }
  }

  /** Writing whole chunks, in whatever order they are listed. */
  lemma {:induction false} WritesAreClosed(op: InsertOp, order: seq<seq<Row>>, k: Key, b: Bag, b': Bag)
    requires WritesAll(op, order, k, b, b') && (op == Update ==> OneVal(Flat(order), k))
    ensures b' == Closed(op, Flat(order), k, b)
    decreases |order|
  {
    if order == [] {
      ClosedNone(op, k, b);
    } else {
      var c, rest := order[0], Flat(order[1..]);
      assert Flat(order) == c + rest;
      assert forall r :: r in c || r in rest ==> r in c + rest;
      var m :| ChunkWrites(op, c, k, b, m) && WritesAll(op, order[1..], k, m, b');
      ChunkIsClosed(op, c, k, b, m);
      WritesAreClosed(op, order[1..], k, m, b');
      ClosedAppend(op, c, rest, k, b);
    }
  }

  // ---------------------------------------------------------------------
  // The order of the chunks does not matter.
  // ---------------------------------------------------------------------

  /** The head of one list, found in a permutation of it and taken out there. */
  lemma {:induction false} PermRest<T>(xs: seq<T>, ys: seq<T>) returns (i: nat)
    requires multiset(xs) == multiset(ys) && xs != []
    ensures i < |ys| && ys[i] == xs[0] && multiset(xs[1..]) == multiset(ys[..i] + ys[i + 1..])
  {
    i := FindIn(xs, ys);
    PutBack(ys, i);
    Headed(xs);
    Cancel(multiset(xs[1..]), multiset(ys[..i] + ys[i + 1..]), xs[0]);
  }

  lemma {:induction false} FindIn<T>(xs: seq<T>, ys: seq<T>) returns (i: nat)
    requires multiset(xs) == multiset(ys) && xs != []
    ensures i < |ys| && ys[i] == xs[0]
  {
    assert xs[0] in multiset(xs);
    i :| 0 <= i < |ys| && ys[i] == xs[0];
  }

  lemma {:induction false} PutBack<T>(s: seq<T>, i: nat)
    requires i < |s|
    ensures multiset(s) == multiset(s[..i] + s[i + 1..]) + multiset{s[i]}
  {
    assert s == s[..i] + [s[i]] + s[i + 1..];
  }

  lemma {:induction false} PermEmpty<T>(ys: seq<T>)
    requires multiset(ys) == multiset{}
    ensures ys == []
  {
    assert |ys| == |multiset(ys)| == 0;
  }

  lemma {:induction false} FlatPerm<T>(xs: seq<seq<T>>, ys: seq<seq<T>>)
    requires multiset(xs) == multiset(ys)
    ensures multiset(Flat(xs)) == multiset(Flat(ys))
    decreases |xs|
  {
    if xs == [] {
      PermEmpty(ys);
    } else {
      var x := xs[0];
      var i := PermRest(xs, ys);
      FlatPerm(xs[1..], ys[..i] + ys[i + 1..]);
      assert ys == ys[..i] + ([x] + ys[i + 1..]);
      FlatAppend(ys[..i], [x] + ys[i + 1..]);
      FlatAppend([x], ys[i + 1..]);
      FlatSingle(x);
      FlatAppend(ys[..i], ys[i + 1..]);
    }
  }

  lemma {:induction false} ValsPerm(xs: seq<Row>, ys: seq<Row>, k: Key)
    requires multiset(xs) == multiset(ys)
    ensures Vals(xs, k) == Vals(ys, k)
    decreases |xs|
  {
    if xs == [] {
      PermEmpty(ys);
    } else {
      var i := PermRest(xs, ys);
      ValsPerm(xs[1..], ys[..i] + ys[i + 1..], k);
      ValsTakeOut(ys, i, k);
    }
  }

  lemma {:induction false} ValsTakeOut(ys: seq<Row>, i: nat, k: Key)
    requires i < |ys|
    ensures Vals(ys, k) ==
      (if ys[i].key == k then multiset{ys[i].val} else multiset{}) + Vals(ys[..i] + ys[i + 1..], k)
  {
    assert ys[i..][1..] == ys[i + 1..];
    assert ys == ys[..i] + ys[i..];
    ValsAppend(ys[..i], ys[i..], k);
    ValsAppend(ys[..i], ys[i + 1..], k);
  }

  lemma {:induction false} PermMembers(xs: seq<Row>, ys: seq<Row>)
    requires multiset(xs) == multiset(ys)
    ensures forall r :: r in xs <==> r in ys
  {
    assert forall r :: r in xs <==> r in multiset(xs);
    assert forall r :: r in ys <==> r in multiset(ys);
  }

  lemma {:induction false} ClosedPerm(op: InsertOp, xs: seq<Row>, ys: seq<Row>, k: Key, b: Bag)
    requires multiset(xs) == multiset(ys) && (op == Update ==> OneVal(ys, k))
    ensures Closed(op, xs, k, b) == Closed(op, ys, k, b)
    ensures op == Update ==> OneVal(xs, k)
  {
    PermMembers(xs, ys);
    assert HasKey(xs, k) <==> HasKey(ys, k);
    match op
    case Insert => ValsPerm(xs, ys, k);
    case Delete =>
    case Update =>
      if HasKey(xs, k) {
        LastValIn(xs, k);
        LastValIn(ys, k);
      }
  }

  /** Chunked concurrent writes of a segment equal its rows one by one, provided an
      update segment does not give a key two values. */
  lemma {:induction false} SegmentMeaning(size: nat, seg: OpSegment, k: Key, b: Bag, b': Bag)
    requires SegmentWrites(size, seg, k, b, b')
    requires seg.op == Update ==> OneVal(seg.rows, k)
    ensures b' == FoldOp(seg.op, seg.rows, k, b)
  {
    var order :| multiset(order) == multiset(Chunks(size, seg.rows)) && WritesAll(seg.op, order, k, b, b');
    FlatPerm(order, Chunks(size, seg.rows));
    ChunksFlat(size, seg.rows);
    ClosedPerm(seg.op, Flat(order), seg.rows, k, b);
    WritesAreClosed(seg.op, order, k, b, b');
    FoldIsClosed(seg.op, seg.rows, k, b);
  }

  // ---------------------------------------------------------------------
  // Exactly when concurrent updates are harmless.
  // ---------------------------------------------------------------------

  lemma {:induction false} ChunkWriteExists(op: InsertOp, chunk: seq<Row>, k: Key, b: Bag) returns (b': Bag)
    ensures ChunkWrites(op, chunk, k, b, b') && (op == Update ==> |b'| == |b|)
  {
    match op
    case Insert => b' := b + Vals(chunk, k);
    case Delete => b' := if HasKey(chunk, k) then multiset{} else b;
    case Update =>
      b' := b;
      if HasKey(chunk, k) {
        var r :| r in chunk && r.key == k;
        b' := Copies(r.val, |b|);
      }
  }

  /** The writes of a segment's chunks have some outcome, in any order. */
  lemma {:induction false} WritesExist(op: InsertOp, order: seq<seq<Row>>, k: Key, b: Bag) returns (b': Bag)
    ensures WritesAll(op, order, k, b, b') && (op == Update ==> |b'| == |b|)
    decreases |order|
  {
    b' := b;
    if order != [] {
      var m := ChunkWriteExists(op, order[0], k, b);
      b' := WritesExist(op, order[1..], k, m);
    }
  }

  lemma {:induction false} WritesSnoc(op: InsertOp, order: seq<seq<Row>>, c: seq<Row>, k: Key, b: Bag, m: Bag, b': Bag)
    requires WritesAll(op, order, k, b, m) && ChunkWrites(op, c, k, m, b')
    ensures WritesAll(op, order + [c], k, b, b')
    decreases |order|
  {
    if order == [] {
      assert [] + [c] == [c] && [c][1..] == [];
      assert WritesAll(op, [], k, b', b');
    } else {
      assert (order + [c])[1..] == order[1..] + [c];
      var n :| ChunkWrites(op, order[0], k, b, n) && WritesAll(op, order[1..], k, n, m);
      WritesSnoc(op, order[1..], c, k, n, m, b');
    }
  }

  /** The chunks of size one. */
  function Singles(rows: seq<Row>): seq<seq<Row>> {
    if rows == [] then [] else [[rows[0]]] + Singles(rows[1..])
  }

  lemma {:induction false} SinglesAppend(xs: seq<Row>, ys: seq<Row>)
    ensures Singles(xs + ys) == Singles(xs) + Singles(ys)
  {
    if xs == [] {
      assert xs + ys == ys;
    } else {
      assert (xs + ys)[1..] == xs[1..] + ys;
      SinglesAppend(xs[1..], ys);
    }
  }

  lemma {:induction false} ChopSingles(rows: seq<Row>)
    ensures Chop(1, rows) == Singles(rows)
  {
    if |rows| == 1 {
      assert rows[1..] == [] && rows == [rows[0]];
    } else if rows != [] {
      assert rows[..1] == [rows[0]];
      ChopSingles(rows[1..]);
    }
  }

  lemma {:induction false} SinglesReordered(rows: seq<Row>, i: nat)
    requires i < |rows|
    ensures multiset(Singles(rows[..i] + rows[i + 1..]) + [[rows[i]]]) == multiset(Singles(rows))
  {
    var a, z, r := rows[..i], rows[i + 1..], rows[i];
    assert rows == a + ([r] + z);
    SinglesAppend(a, z);
    SinglesAppend(a, [r] + z);
    SinglesAppend([r], z);
    assert [r][1..] == [];
    assert Singles([r]) == [[r]] + Singles([]);
  }

  /** With one row per chunk, any update of a key can be the one that stays. */
  lemma {:induction false} AnyUpdateLast(rows: seq<Row>, i: nat, k: Key, b: Bag)
    requires i < |rows| && rows[i].key == k && 1 < |rows|
    ensures SegmentWrites(1, OpSegment(Update, rows), k, b, Copies(rows[i].val, |b|))
  {
    var first := Singles(rows[..i] + rows[i + 1..]);
    SinglesReordered(rows, i);
    ChopSingles(rows);
    hide Singles;
    hide Chop;
    LastUpdateStays(first, rows[i], b);
  }

  lemma {:induction false} LastUpdateStays(first: seq<seq<Row>>, r: Row, b: Bag)
    ensures WritesAll(Update, first + [[r]], r.key, b, Copies(r.val, |b|))
  {
    var m := WritesExist(Update, first, r.key, b);
    assert r in [r] && HasKey([r], r.key);
    WritesSnoc(Update, first, [r], r.key, b, m, Copies(r.val, |b|));
  }

  /** Two updates of one key in a run: either value can stay. */
  lemma {:induction false} DoubleUpdateRaces(u: Row, w: Row, b: Bag)
    requires u.key == w.key
    ensures SegmentWrites(1, OpSegment(Update, [u, w]), u.key, b, Copies(u.val, |b|))
    ensures SegmentWrites(1, OpSegment(Update, [u, w]), u.key, b, Copies(w.val, |b|))
  {
    AnyUpdateLast([u, w], 0, u.key, b);
    AnyUpdateLast([u, w], 1, u.key, b);
  }

  lemma {:induction false} UpdatesKeepCount(order: seq<seq<Row>>, k: Key, b: Bag, b': Bag)
    requires WritesAll(Update, order, k, b, b')
    ensures |b'| == |b|
    decreases |order|
  {
    if order != [] {
      var m :| ChunkWrites(Update, order[0], k, b, m) && WritesAll(Update, order[1..], k, m, b');
      UpdatesKeepCount(order[1..], k, m, b');
    }
  }

  lemma {:induction false} CopiesDiffer(v: Val, w: Val, n: nat)
    requires v != w && 0 < n
    ensures Copies(v, n) != Copies(w, n)
  {
    assert Copies(v, n)[v] == n && Copies(w, n)[v] == 0;
  }

  /** The exact condition: every chunk size and every order of the chunks of an
      update segment give a key what the segment's rows give it one by one, if and
      only if the key has no rows or the segment does not give it two values. */
  lemma {:induction false} UpdateExactIff(rows: seq<Row>, k: Key, b: Bag)
    ensures (forall size, b' :: SegmentWrites(size, OpSegment(Update, rows), k, b, b') ==> b' == FoldOp(Update, rows, k, b))
      <==> b == multiset{} || OneVal(rows, k)
  {
    var seg := OpSegment(Update, rows);
    if b == multiset{} || OneVal(rows, k) {
      forall size, b' | SegmentWrites(size, seg, k, b, b')
        ensures b' == FoldOp(Update, rows, k, b)
      {
        if OneVal(rows, k) {
          SegmentMeaning(size, seg, k, b, b');
        } else {
          NothingToUpdate(size, seg, k, b');
        }
      }
    } else {
      var i := OtherVal(rows, k);
      AnyUpdateLast(rows, i, k, b);
      FoldIsClosed(Update, rows, k, b);
      CopiesDiffer(rows[i].val, LastVal(rows, k), |b|);
    }
  }

  lemma {:induction false} NothingToUpdate(size: nat, seg: OpSegment, k: Key, b': Bag)
    requires seg.op == Update && SegmentWrites(size, seg, k, multiset{}, b')
    ensures b' == multiset{} == FoldOp(Update, seg.rows, k, multiset{})
  {
    var order :| multiset(order) == multiset(Chunks(size, seg.rows)) && WritesAll(Update, order, k, multiset{}, b');
    UpdatesKeepCount(order, k, multiset{}, b');
    FoldIsClosed(Update, seg.rows, k, multiset{});
    assert |Closed(Update, seg.rows, k, multiset{})| == 0;
  }

  /** A key with two values has one besides its last. */
  lemma {:induction false} OtherVal(rows: seq<Row>, k: Key) returns (i: nat)
    requires !OneVal(rows, k)
    ensures 1 < |rows| && HasKey(rows, k) && i < |rows| && rows[i].key == k && rows[i].val != LastVal(rows, k)
  {
    var r, q :| r in rows && q in rows && r.key == k && q.key == k && r.val != q.val;
    assert HasKey(rows, k);
    var x, y :| 0 <= x < |rows| && 0 <= y < |rows| && rows[x] == r && rows[y] == q;
    i := if r.val != LastVal(rows, k) then x else y;
  }

  // ---------------------------------------------------------------------
  // Whole batches and whole streams.
  // ---------------------------------------------------------------------

  predicate AllUpdates(rows: seq<Row>, i: nat, j: nat)
    requires i <= j < |rows|
  {
    forall m :: i <= m <= j ==> rows[m].op == "u"
  }

  /** No run of updates gives the key two values. */
  ghost predicate FreshUpdates(rows: seq<Row>, k: Key) {
    forall i, j :: 0 <= i < j < |rows| && AllUpdates(rows, i, j) && rows[i].key == k && rows[j].key == k ==>
      rows[i].val == rows[j].val
  }

  /** A dataset without mutations contains none. */
  ghost predicate Declared(sc: Schema, rows: seq<Row>) {
    !sc.mutating ==> forall r :: r in rows ==> Plain(sc, r)
  }

  /** The assumptions on a table's row stream, as far as one key is concerned. */
  ghost predicate Replayable(sc: Schema, rows: seq<Row>, k: Key) {
    && (sc.hasOp && sc.hasIndex ==> TightIndex(rows))
    && (sc.hasOp ==> FreshUpdates(rows, k))
    && Declared(sc, rows)
  }

  /** They hold for every contiguous part of it. */
  lemma {:induction false} ReplayableParts(sc: Schema, xs: seq<Row>, ys: seq<Row>, k: Key)
    requires Replayable(sc, xs + ys, k)
    ensures Replayable(sc, xs, k) && Replayable(sc, ys, k)
  {
    DeclaredParts(sc, xs, ys);
    if sc.hasOp {
      FreshParts(xs, ys, k);
      if sc.hasIndex {
        TightParts(xs, ys);
      }
    }
  }

  lemma {:induction false} DeclaredParts(sc: Schema, xs: seq<Row>, ys: seq<Row>)
    ensures Declared(sc, xs + ys) <==> Declared(sc, xs) && Declared(sc, ys)
  {
    assert forall r :: r in xs + ys <==> r in xs || r in ys;
  }

  lemma {:induction false} TightParts(xs: seq<Row>, ys: seq<Row>)
    requires TightIndex(xs + ys)
    ensures TightIndex(xs) && TightIndex(ys)
  {
    var s, n := xs + ys, |xs|;
    forall i, j | 0 <= i < j < |xs|
      ensures xs[i].opIndex < xs[j].opIndex || xs[i] == xs[j]
    {
      assert s[i] == xs[i] && s[j] == xs[j];
    }
    forall i, j | 0 <= i < j < |ys|
      ensures ys[i].opIndex < ys[j].opIndex || ys[i] == ys[j]
    {
      assert s[n + i] == ys[i] && s[n + j] == ys[j];
    }
  }

  lemma {:induction false} FreshParts(xs: seq<Row>, ys: seq<Row>, k: Key)
    requires FreshUpdates(xs + ys, k)
    ensures FreshUpdates(xs, k) && FreshUpdates(ys, k)
  {
    var s, n := xs + ys, |xs|;
    forall i, j | 0 <= i < j < |xs| && AllUpdates(xs, i, j) && xs[i].key == k && xs[j].key == k
      ensures xs[i].val == xs[j].val
    {
      assert AllUpdates(s, i, j);
      assert s[i] == xs[i] && s[j] == xs[j];
    }
    forall i, j | 0 <= i < j < |ys| && AllUpdates(ys, i, j) && ys[i].key == k && ys[j].key == k
      ensures ys[i].val == ys[j].val
    {
      assert AllUpdates(s, n + i, n + j) by {
        forall m | n + i <= m <= n + j
          ensures s[m].op == "u"
        {
          assert ys[m - n].op == "u";
        }
      }
      assert s[n + i] == ys[i] && s[n + j] == ys[j];
    }
  }

  /** Segment by segment, the runs of a row list mean what its rows mean. */
  lemma {:induction false} RunsMeaning(sc: Schema, size: nat, rows: seq<Row>, k: Key, b: Bag, b': Bag)
    requires sc.hasOp && FreshUpdates(rows, k) && SegmentsWrite(size, Runs(rows), k, b, b')
    ensures b' == Fold(sc, rows, k, b)
    decreases |rows|
  {
    if rows != [] {
      var run, rest, m := FirstRunWrites(size, rows, k, b, b');
      hide SegmentsWrite;
      hide SegmentWrites;
      hide Runs;
      hide FreshUpdates;
      hide Fold;
      FreshParts(run, rest, k);
      RunMeaning(sc, size, run, rows[0].op, k, b, m);
      RunsMeaning(sc, size, rest, k, m, b');
      FoldAppend(sc, run, rest, k, b);
    }
  }

  /** The writes of the first run, and those of the rest. */
  lemma {:induction false} FirstRunWrites(size: nat, rows: seq<Row>, k: Key, b: Bag, b': Bag) returns (run: seq<Row>, rest: seq<Row>, m: Bag)
    requires rows != [] && SegmentsWrite(size, Runs(rows), k, b, b')
    ensures rows == run + rest && |rest| < |rows| && forall i :: 0 <= i < |run| ==> run[i].op == rows[0].op
    ensures SegmentWrites(size, OpSegment(ToOp(rows[0].op), run), k, b, m) && SegmentsWrite(size, Runs(rest), k, m, b')
  {
    RunsCons(rows);
    run, rest := FirstRun(rows);
    hide Runs;
    hide SegmentsWrite;
    hide SegmentWrites;
    m := FirstSegmentWrites(size, OpSegment(ToOp(rows[0].op), run), Runs(rest), k, b, b');
  }

  lemma {:induction false} FirstRun(rows: seq<Row>) returns (run: seq<Row>, rest: seq<Row>)
    requires rows != []
    ensures run == rows[..RunLen(rows, rows[0].op)] && rest == rows[RunLen(rows, rows[0].op)..]
    ensures rows == run + rest && |rest| < |rows| && forall i :: 0 <= i < |run| ==> run[i].op == rows[0].op
  {
    RunOps(rows, rows[0].op);
    var n := RunLen(rows, rows[0].op);
    assert 0 < n;
    hide RunLen;
    run, rest := rows[..n], rows[n..];
  }

  lemma {:induction false} RunsCons(rows: seq<Row>)
    requires rows != []
    ensures var n := RunLen(rows, rows[0].op);
      0 < n && Runs(rows) == [OpSegment(ToOp(rows[0].op), rows[..n])] + Runs(rows[n..])
  {
  }

  lemma {:induction false} FirstSegmentWrites(size: nat, seg: OpSegment, rest: seq<OpSegment>, k: Key, b: Bag, b': Bag) returns (m: Bag)
    requires SegmentsWrite(size, [seg] + rest, k, b, b')
    ensures SegmentWrites(size, seg, k, b, m) && SegmentsWrite(size, rest, k, m, b')
  {
    hide SegmentWrites;
    assert ([seg] + rest)[1..] == rest;
    m :| SegmentWrites(size, seg, k, b, m) && SegmentsWrite(size, rest, k, m, b');
  }

  /** One run of equal operations. */
  lemma {:induction false} RunMeaning(sc: Schema, size: nat, run: seq<Row>, op: string, k: Key, b: Bag, b': Bag)
    requires sc.hasOp && FreshUpdates(run, k) && (forall i :: 0 <= i < |run| ==> run[i].op == op)
    requires SegmentWrites(size, OpSegment(ToOp(op), run), k, b, b')
    ensures b' == Fold(sc, run, k, b)
  {
    RunHasOneVal(run, op, k);
    SegmentMeaning(size, OpSegment(ToOp(op), run), k, b, b');
    FoldUniform(sc, ToOp(op), run, k, b);
  }

  lemma {:induction false} RunHasOneVal(run: seq<Row>, op: string, k: Key)
    requires FreshUpdates(run, k) && forall i :: 0 <= i < |run| ==> run[i].op == op
    ensures ToOp(op) == Update ==> OneVal(run, k)
  {
    if op == "u" {
      forall r, q | r in run && q in run && r.key == k && q.key == k
        ensures r.val == q.val
      {
        var i, j :| 0 <= i < |run| && 0 <= j < |run| && run[i] == r && run[j] == q;
        var lo, hi := if i < j then i else j, if i < j then j else i;
        assert AllUpdates(run, lo, hi);
      }
    }
  }

  /** One coalesced batch: fast path or sort and split, the meaning is the rows'. */
  lemma {:induction false} BatchMeaning(sc: Schema, sort: seq<Row> -> seq<Row>, size: nat, batch: RecordBatch, k: Key, b: Bag, b': Bag)
    requires Sorts(sort) && Replayable(sc, batch, k)
    requires SegmentsWrite(size, Segments(sc, sort, batch), k, b, b')
    ensures b' == Fold(sc, batch, k, b)
  {
    if InsertOnly(sc, batch) {
      var seg := OpSegment(Insert, batch);
      assert [seg][1..] == [];
      var m :| SegmentWrites(size, seg, k, b, m) && SegmentsWrite(size, [], k, m, b');
      SegmentMeaning(size, seg, k, b, b');
      FoldUniform(sc, Insert, batch, k, b);
    } else {
      if sc.hasIndex {
        assert IsSort(sort(batch), batch);
        SortIsIdentity(sort(batch), batch);
      }
      RunsMeaning(sc, size, batch, k, b, b');
    }
  }

  /** Meaning preservation for a table's stream: whatever the target row count that
      cut it into batches, the chunk size and the order in which chunks complete,
      the target ends up as if the source rows had been applied one by one. */
  lemma {:induction false} MeaningPreserved(sc: Schema, sort: seq<Row> -> seq<Row>, size: nat, batches: seq<RecordBatch>, k: Key, b: Bag, b': Bag)
    requires Sorts(sort) && Replayable(sc, Flat(batches), k)
    requires BatchesWrite(sc, sort, size, batches, k, b, b')
    ensures b' == Fold(sc, Flat(batches), k, b)
    decreases |batches|
  {
    if batches != [] {
      var m :| SegmentsWrite(size, Segments(sc, sort, batches[0]), k, b, m) &&
               BatchesWrite(sc, sort, size, batches[1..], k, m, b');
      ReplayableParts(sc, batches[0], Flat(batches[1..]), k);
      BatchMeaning(sc, sort, size, batches[0], k, b, m);
      MeaningPreserved(sc, sort, size, batches[1..], k, m, b');
      FoldAppend(sc, batches[0], Flat(batches[1..]), k, b);
    }
  }

  lemma {:induction false} SegmentsWriteExists(size: nat, segs: seq<OpSegment>, k: Key, b: Bag) returns (b': Bag)
    ensures SegmentsWrite(size, segs, k, b, b')
    decreases |segs|
  {
    b' := b;
    if segs != [] {
      var m := WritesExist(segs[0].op, Chunks(size, segs[0].rows), k, b);
      assert SegmentWrites(size, segs[0], k, b, m);
      b' := SegmentsWriteExists(size, segs[1..], k, m);
    }
  }

  /** The writes of a table have some outcome. */
  lemma {:induction false} BatchesWriteExists(sc: Schema, sort: seq<Row> -> seq<Row>, size: nat, batches: seq<RecordBatch>, k: Key, b: Bag)
    returns (b': Bag)
    ensures BatchesWrite(sc, sort, size, batches, k, b, b')
    decreases |batches|
  {
    b' := b;
    if batches != [] {
      var m := SegmentsWriteExists(size, Segments(sc, sort, batches[0]), k, b);
      b' := BatchesWriteExists(sc, sort, size, batches[1..], k, m);
    }
  }

  const MUTATING: Schema := Schema(true, true, true)

  /** Sorting is per coalesced batch only: with indices out of order along the stream,
      the target depends on where the row target cuts it.  Here an insert carries a
      higher index than the delete that follows it.  In one batch the two change
      places and the inserted row stays; in two batches it is deleted.  Both writes
      have an outcome, for every chunk size. */
  lemma {:induction false} SortIsPerBatchOnly(sort: seq<Row> -> seq<Row>, size: nat)
    requires Sorts(sort)
    ensures var c, d := Row("c", 2, "k", "v"), Row("d", 1, "k", "v");
      && (exists b :: BatchesWrite(MUTATING, sort, size, [[c, d]], "k", multiset{}, b))
      && (exists b :: BatchesWrite(MUTATING, sort, size, [[c], [d]], "k", multiset{}, b))
      && (forall b :: BatchesWrite(MUTATING, sort, size, [[c, d]], "k", multiset{}, b) ==> b == multiset{"v"})
      && (forall b :: BatchesWrite(MUTATING, sort, size, [[c], [d]], "k", multiset{}, b) ==> b == multiset{})
  {
    var c, d := Row("c", 2, "k", "v"), Row("d", 1, "k", "v");
    var none: Bag := multiset{};
    var one := BatchesWriteExists(MUTATING, sort, size, [[c, d]], "k", none);
    var two := BatchesWriteExists(MUTATING, sort, size, [[c], [d]], "k", none);
    forall b | BatchesWrite(MUTATING, sort, size, [[c, d]], "k", none, b)
      ensures b == multiset{"v"}
    {
      TogetherKeeps(sort, size, c, d, b);
    }
    forall b | BatchesWrite(MUTATING, sort, size, [[c], [d]], "k", none, b)
      ensures b == none
    {
      ApartDeletes(sort, size, c, d, b);
    }
  }

  lemma {:induction false} ApartDeletes(sort: seq<Row> -> seq<Row>, size: nat, c: Row, d: Row, b: Bag)
    requires Sorts(sort) && c == Row("c", 2, "k", "v") && d == Row("d", 1, "k", "v")
    requires BatchesWrite(MUTATING, sort, size, [[c], [d]], "k", multiset{}, b)
    ensures b == multiset{}
  {
    var none: Bag := multiset{};
    var m :| SegmentsWrite(size, Segments(MUTATING, sort, [c]), "k", none, m) && BatchesWrite(MUTATING, sort, size, [[d]], "k", m, b);
    assert [[c], [d]][1..] == [[d]] && [[d]][1..] == [];
    var n :| SegmentsWrite(size, Segments(MUTATING, sort, [d]), "k", m, n) && BatchesWrite(MUTATING, sort, size, [], "k", n, b);
    assert Replayable(MUTATING, [d], "k");
    BatchMeaning(MUTATING, sort, size, [d], "k", m, n);
    assert [d][1..] == [];
    assert Fold(MUTATING, [d], "k", m) == Fold(MUTATING, [], "k", TextEffect(MUTATING, d, "k", m));
  }

  lemma {:induction false} TogetherKeeps(sort: seq<Row> -> seq<Row>, size: nat, c: Row, d: Row, b: Bag)
    requires Sorts(sort) && c == Row("c", 2, "k", "v") && d == Row("d", 1, "k", "v")
    requires BatchesWrite(MUTATING, sort, size, [[c, d]], "k", multiset{}, b)
    ensures b == multiset{"v"}
  {
    var none: Bag := multiset{};
    assert [[c, d]][1..] == [];
    var m :| SegmentsWrite(size, Segments(MUTATING, sort, [c, d]), "k", none, m) && BatchesWrite(MUTATING, sort, size, [], "k", m, b);
    hide SegmentsWrite;
    hide Runs;
    assert m == b;
    SwappedSegments(sort, c, d);
    FreshPair(c, d);
    RunsMeaning(MUTATING, size, [d, c], "k", none, b);
    FoldPair(c, d);
  }

  lemma {:induction false} SwappedSegments(sort: seq<Row> -> seq<Row>, c: Row, d: Row)
    requires Sorts(sort) && d.opIndex < c.opIndex && d.op == "d"
    ensures Segments(MUTATING, sort, [c, d]) == Runs([d, c])
  {
    hide Runs;
    assert [c, d][1].op == "d";
    assert !InsertOnly(MUTATING, [c, d]);
    SortedSwap(sort, c, d);
  }

  lemma {:induction false} FreshPair(c: Row, d: Row)
    requires d.op == "d"
    ensures FreshUpdates([d, c], "k")
  {
    assert [d, c][0].op == "d";
  }

  lemma {:induction false} FoldPair(c: Row, d: Row)
    requires c == Row("c", 2, "k", "v") && d == Row("d", 1, "k", "v")
    ensures Fold(MUTATING, [d, c], "k", multiset{}) == multiset{"v"}
  {
    var none: Bag := multiset{};
    assert [d, c][1..] == [c] && [c][1..] == [];
    assert Fold(MUTATING, [d, c], "k", none) == Fold(MUTATING, [c], "k", TextEffect(MUTATING, d, "k", none));
    assert Fold(MUTATING, [c], "k", none) == Fold(MUTATING, [], "k", TextEffect(MUTATING, c, "k", none));
  }

  lemma {:induction false} SortedSwap(sort: seq<Row> -> seq<Row>, c: Row, d: Row)
    requires Sorts(sort) && d.opIndex < c.opIndex
    ensures sort([c, d]) == [d, c]
  {
    var s := sort([c, d]);
    assert IsSort(s, [c, d]);
    assert multiset([c, d]) == multiset([d, c]);
    assert IsSort(s, [d, c]);
    SortIsIdentity(s, [d, c]);
  }
}
