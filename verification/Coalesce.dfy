/** Regrouping of record batches before they are written: small batches are
    merged and large ones are split, up to a target row count. */
module Coalesce {
  import opened Prelude
  import opened Records

  /** A list cut into pieces of at most `size` rows. */
  function Chop(size: nat, rows: seq<Row>): seq<seq<Row>>
    requires 0 < size
    decreases |rows|
  {
    if rows == [] then []
    else if |rows| <= size then [rows]
    else [rows[..size]] + Chop(size, rows[size..])
  }

  lemma {:induction false} ChopFlat(size: nat, rows: seq<Row>)
    requires 0 < size
    ensures Flat(Chop(size, rows)) == rows
    ensures forall c :: c in Chop(size, rows) ==> 0 < |c| <= size
    decreases |rows|
  {
    if |rows| > size {
      ChopFlat(size, rows[size..]);
      assert rows == rows[..size] + rows[size..];
    } else if rows != [] {
      FlatSingle(rows);
    }
  }

  // ---------------------------------------------------------------------
  // Specification
  // ---------------------------------------------------------------------

  /** Output so far, and the rows collected for the next output batch. */
  datatype Acc = Acc(out: seq<RecordBatch>, pend: seq<Row>)

  /** The collected rows go out if the next chunk would not fit. */
  function Flush(target: nat, a: Acc, chunk: seq<Row>): Acc {
    if a.pend != [] && |a.pend| + |chunk| > target then Acc(a.out + [a.pend], []) else a
  }

  function Push(target: nat, a: Acc, chunk: seq<Row>): Acc {
    var f := Flush(target, a, chunk);
    var pend := f.pend + chunk;
    if |pend| == target then Acc(f.out + [pend], []) else Acc(f.out, pend)
  }

  function PushAll(target: nat, a: Acc, chunks: seq<seq<Row>>): Acc
    decreases |chunks|
  {
    if chunks == [] then a else PushAll(target, Push(target, a, chunks[0]), chunks[1..])
  }

  function Finish(a: Acc): seq<RecordBatch> {
    if a.pend == [] then a.out else a.out + [a.pend]
  }

  function ChopAll(target: nat, batches: seq<RecordBatch>): seq<seq<Row>>
    requires 0 < target
  {
    if batches == [] then [] else Chop(target, batches[0]) + ChopAll(target, batches[1..])
  }

  function Coalesced(target: nat, batches: seq<RecordBatch>): seq<RecordBatch>
    requires 0 < target
  {
    Finish(PushAll(target, Acc([], []), ChopAll(target, batches)))
  }

  lemma {:induction false} PushAllAppend(target: nat, a: Acc, xs: seq<seq<Row>>, ys: seq<seq<Row>>)
    ensures PushAll(target, a, xs + ys) == PushAll(target, PushAll(target, a, xs), ys)
    decreases |xs|
  {
    if xs == [] {
      assert xs + ys == ys;
    } else {
      assert (xs + ys)[1..] == xs[1..] + ys;
      PushAllAppend(target, Push(target, a, xs[0]), xs[1..], ys);
    }
  }

  lemma {:induction false} ChopAllAppend(target: nat, xs: seq<RecordBatch>, ys: seq<RecordBatch>)
    requires 0 < target
    ensures ChopAll(target, xs + ys) == ChopAll(target, xs) + ChopAll(target, ys)
  {
    if xs == [] {
      assert xs + ys == ys;
    } else {
      assert (xs + ys)[1..] == xs[1..] + ys;
      ChopAllAppend(target, xs[1..], ys);
    }
  }

  ghost predicate Pending(pending: seq<RecordBatch>, pendingRows: nat) {
    |Flat(pending)| == pendingRows && (pending == [] <==> pendingRows == 0)
  }

  /** One turn of the inner loop: the chunk is written through, or joins the
      pending batches, which go out when they are full or when it does not fit. */
  method AddChunk(target: nat, result: seq<RecordBatch>, pending: seq<RecordBatch>, pendingRows: nat, chunk: seq<Row>)
    returns (result': seq<RecordBatch>, pending': seq<RecordBatch>, pendingRows': nat)
    requires Pending(pending, pendingRows) && 0 < |chunk| <= target
    ensures Pending(pending', pendingRows')
    ensures Acc(result', Flat(pending')) == Push(target, Acc(result, Flat(pending)), chunk)
  {
    result', pending', pendingRows' := result, pending, pendingRows;
    if pendingRows' > 0 && pendingRows' + |chunk| > target {
      result' := result' + [Flat(pending')];
      pending', pendingRows' := [], 0;
    }
    if |chunk| == target && pendingRows' == 0 {
      result' := result' + [chunk];
      assert [] + chunk == chunk;
    } else {
      FlatSnoc(pending', chunk);
      pendingRows' := pendingRows' + |chunk|;
      pending' := pending' + [chunk];
      if pendingRows' == target {
        result' := result' + [Flat(pending')];
        pending', pendingRows' := [], 0;
      }
    }
  }

  /** The inner loop: one input batch, chunk by chunk. */
  method AddBatch(target: nat, result: seq<RecordBatch>, pending: seq<RecordBatch>, pendingRows: nat, batch: RecordBatch)
    returns (result': seq<RecordBatch>, pending': seq<RecordBatch>, pendingRows': nat)
    requires Pending(pending, pendingRows) && 0 < target
    ensures Pending(pending', pendingRows')
    ensures Acc(result', Flat(pending')) == PushAll(target, Acc(result, Flat(pending)), Chop(target, batch))
  {
    result', pending', pendingRows' := result, pending, pendingRows;
    var offset := 0;
    assert batch[0..] == batch;
    hide Push;
    hide Chop;
    hide Flat;
    while offset < |batch|
      invariant 0 <= offset <= |batch|
      invariant Pending(pending', pendingRows')
      invariant PushAll(target, Acc(result', Flat(pending')), Chop(target, batch[offset..])) ==
                PushAll(target, Acc(result, Flat(pending)), Chop(target, batch))
    {
      var chunkRows := if target < |batch| - offset then target else |batch| - offset;
      var chunk := if offset == 0 && chunkRows == |batch| then batch else batch[offset..offset + chunkRows];
      ChopHead(target, batch[offset..], chunk);
      assert batch[offset..][chunkRows..] == batch[offset + chunkRows..];
      PushFirst(target, Acc(result', Flat(pending')), chunk, Chop(target, batch[offset + chunkRows..]));
      result', pending', pendingRows' := AddChunk(target, result', pending', pendingRows', chunk);
      offset := offset + chunkRows;
    }
    assert batch[offset..] == [];
    ChopNothing(target, Acc(result', Flat(pending')));
  }

  lemma {:induction false} PushFirst(target: nat, a: Acc, chunk: seq<Row>, rest: seq<seq<Row>>)
    ensures PushAll(target, a, [chunk] + rest) == PushAll(target, Push(target, a, chunk), rest)
  {
    hide Push;
    assert ([chunk] + rest)[1..] == rest;
  }

  lemma {:induction false} ChopNothing(target: nat, a: Acc)
    requires 0 < target
    ensures PushAll(target, a, Chop(target, [])) == a
  {
  }

  /** `coalesce_batches`. */
  method CoalesceBatches(target: nat, batches: seq<RecordBatch>) returns (result: seq<RecordBatch>)
    requires 0 < target
    ensures result == Coalesced(target, batches)
  {
    result := [];
    var pending: seq<RecordBatch> := [];
    var pendingRows := 0;
    var i := 0;
    assert batches[0..] == batches;
    while i < |batches|
      invariant 0 <= i <= |batches|
      invariant Pending(pending, pendingRows)
      invariant PushAll(target, Acc(result, Flat(pending)), ChopAll(target, batches[i..])) ==
                PushAll(target, Acc([], []), ChopAll(target, batches))
    {
      assert batches[i..][0] == batches[i] && batches[i..][1..] == batches[i + 1..];
      PushAllAppend(target, Acc(result, Flat(pending)), Chop(target, batches[i]), ChopAll(target, batches[i + 1..]));
      result, pending, pendingRows := AddBatch(target, result, pending, pendingRows, batches[i]);
      i := i + 1;
    }
    assert batches[i..] == [];
    if pending != [] {
      result := result + [Flat(pending)];
    }
  }

  lemma {:induction false} ChopHead(target: nat, rows: seq<Row>, chunk: seq<Row>)
    requires 0 < target && rows != [] && chunk == rows[..if target < |rows| then target else |rows|]
    ensures Chop(target, rows) == [chunk] + Chop(target, rows[|chunk|..])
  {
    if |rows| <= target {
      assert rows[|chunk|..] == [] && chunk == rows;
    }
  }

  // ---------------------------------------------------------------------
  // What the output looks like.
  // ---------------------------------------------------------------------

  /** Every batch has between 1 and `target` rows, and no two neighbours would fit
      into one. */
  ghost predicate Compact(target: nat, out: seq<RecordBatch>) {
    && (forall i :: 0 <= i < |out| ==> 0 < |out[i]| <= target)
    && (forall i, j :: 0 <= i < j < |out| && j == i + 1 ==> target < |out[i]| + |out[j]|)
  }

  ghost predicate AccOk(target: nat, a: Acc) {
    && Compact(target, a.out)
    && |a.pend| < target
    && (a.out != [] && a.pend == [] ==> |a.out[|a.out| - 1]| == target)
    && (a.out != [] && a.pend != [] ==> target < |a.out[|a.out| - 1]| + |a.pend|)
  }

  lemma {:induction false} PushOk(target: nat, a: Acc, chunk: seq<Row>)
    requires 0 < target && AccOk(target, a) && 0 < |chunk| <= target
    ensures AccOk(target, Push(target, a, chunk))
  {
    var f := Flush(target, a, chunk);
    FlushOk(target, a, chunk);
    if |f.pend + chunk| == target {
      SnocCompact(target, f.out, f.pend + chunk);
    }
  }

  lemma {:induction false} PushFlat(target: nat, a: Acc, chunk: seq<Row>)
    ensures Flat(Push(target, a, chunk).out) + Push(target, a, chunk).pend == (Flat(a.out) + a.pend) + chunk
  {
    var f := Flush(target, a, chunk);
    FlatSnoc(a.out, a.pend);
    FlatSnoc(f.out, f.pend + chunk);
    assert Flat(f.out) + (f.pend + chunk) == (Flat(f.out) + f.pend) + chunk;
  }

  lemma {:induction false} SnocCompact(target: nat, out: seq<RecordBatch>, b: RecordBatch)
    requires Compact(target, out) && 0 < |b| <= target
    requires out != [] ==> target < |out[|out| - 1]| + |b|
    ensures Compact(target, out + [b])
  {
  }

  lemma {:induction false} FlushOk(target: nat, a: Acc, chunk: seq<Row>)
    requires 0 < target && AccOk(target, a) && 0 < |chunk| <= target
    ensures var f := Flush(target, a, chunk);
      && Compact(target, f.out) && |f.pend| < target && |f.pend| + |chunk| <= target
      && (f.out != [] ==> target < |f.out[|f.out| - 1]| + |f.pend + chunk|)
  {
    if a.pend != [] && |a.pend| + |chunk| > target {
      SnocCompact(target, a.out, a.pend);
    }
  }

  lemma {:induction false} PushAllOk(target: nat, a: Acc, chunks: seq<seq<Row>>)
    requires 0 < target && AccOk(target, a) && forall c :: c in chunks ==> 0 < |c| <= target
    ensures AccOk(target, PushAll(target, a, chunks))
    decreases |chunks|
  {
    if chunks != [] {
      assert chunks[0] in chunks;
      PushOk(target, a, chunks[0]);
      PushAllOk(target, Push(target, a, chunks[0]), chunks[1..]);
    }
  }

  lemma {:induction false} PushAllFlat(target: nat, a: Acc, chunks: seq<seq<Row>>)
    ensures Flat(PushAll(target, a, chunks).out) + PushAll(target, a, chunks).pend == (Flat(a.out) + a.pend) + Flat(chunks)
    decreases |chunks|
  {
    if chunks != [] {
      PushFlat(target, a, chunks[0]);
      PushAllFlat(target, Push(target, a, chunks[0]), chunks[1..]);
      var h := Flat(a.out) + a.pend;
      assert (h + chunks[0]) + Flat(chunks[1..]) == h + (chunks[0] + Flat(chunks[1..]));
    }
  }

  lemma {:induction false} ChopAllFlat(target: nat, batches: seq<RecordBatch>)
    requires 0 < target
    ensures Flat(ChopAll(target, batches)) == Flat(batches)
    ensures forall c :: c in ChopAll(target, batches) ==> 0 < |c| <= target
  {
    if batches != [] {
      ChopFlat(target, batches[0]);
      ChopAllFlat(target, batches[1..]);
      FlatAppend(Chop(target, batches[0]), ChopAll(target, batches[1..]));
    }
  }

  /** The outputs concatenate to the inputs and are compact. */
  lemma {:induction false} CoalescedIsCompact(target: nat, batches: seq<RecordBatch>)
    requires 0 < target
    ensures Flat(Coalesced(target, batches)) == Flat(batches)
    ensures Compact(target, Coalesced(target, batches))
  {
    var chunks := ChopAll(target, batches);
    var a := PushAll(target, Acc([], []), chunks);
    ChopAllFlat(target, batches);
    PushAllOk(target, Acc([], []), chunks);
    PushAllFlat(target, Acc([], []), chunks);
    assert (Flat<Row>([]) + []) + Flat(chunks) == Flat(chunks);
    FinishOk(target, a);
  }

  lemma {:induction false} FinishOk(target: nat, a: Acc)
    requires AccOk(target, a)
    ensures Compact(target, Finish(a)) && Flat(Finish(a)) == Flat(a.out) + a.pend
  {
    FlatSnoc(a.out, a.pend);
    if a.pend != [] {
      SnocCompact(target, a.out, a.pend);
    }
  }

  /** Hence the number of outputs is bounded by the number of rows: every pair of
      neighbours holds more than `target` of them. */
  lemma {:induction false} CompactCount(target: nat, out: seq<RecordBatch>)
    requires Compact(target, out)
    ensures (|out| / 2) * (target + 1) <= NumRows(out)
    decreases |out|
  {
    if |out| >= 2 {
      var rest := out[2..];
      CompactCount(target, rest);
      assert out[1..][1..] == rest;
      assert Flat(out) == out[0] + (out[1] + Flat(rest));
      CountStep(|rest| / 2, target + 1, NumRows(rest), NumRows(out));
      assert |out| / 2 == |rest| / 2 + 1;
    }
  }

  lemma {:induction false} CountStep(h: nat, d: nat, n: nat, m: nat)
    requires h * d <= n && n + d <= m
    ensures (h + 1) * d <= m
  {
    assert (h + 1) * d == h * d + d;
  }

  /** A compact list is a fixed point. */
  lemma {:induction false} CompactFixed(target: nat, out: seq<RecordBatch>)
    requires 0 < target && Compact(target, out)
    ensures Coalesced(target, out) == out
  {
    ChopCompact(target, out);
    PushCompact(target, out, |out|);
    assert out[..|out|] == out;
    if out != [] {
      var n := |out| - 1;
      assert out[..n] + [out[n]] == out;
    }
  }

  lemma {:induction false} ChopCompact(target: nat, out: seq<RecordBatch>)
    requires 0 < target && forall i :: 0 <= i < |out| ==> 0 < |out[i]| <= target
    ensures ChopAll(target, out) == out
  {
    if out != [] {
      ChopCompact(target, out[1..]);
      assert [out[0]] + out[1..] == out;
    }
  }

  lemma {:induction false} PushCompact(target: nat, out: seq<RecordBatch>, n: nat)
    requires 0 < target && Compact(target, out) && n <= |out|
    ensures PushAll(target, Acc([], []), out[..n]) ==
      if n == 0 then Acc([], [])
      else if |out[n - 1]| == target then Acc(out[..n], []) else Acc(out[..n - 1], out[n - 1])
    decreases n
  {
    if n > 0 {
      var m := n - 1;
      PushCompact(target, out, m);
      assert out[..n] == out[..m] + [out[m]];
      PushAllAppend(target, Acc([], []), out[..m], [out[m]]);
      var a := PushAll(target, Acc([], []), out[..m]);
      assert PushAll(target, a, [out[m]]) == PushAll(target, Push(target, a, out[m]), []);
      assert [] + out[m] == out[m];
      if m > 0 {
        assert out[..m - 1] + [out[m - 1]] == out[..m];
      }
    }
  }

  /** Coalescing twice is coalescing once. */
  lemma {:induction false} CoalesceIdempotent(target: nat, batches: seq<RecordBatch>)
    requires 0 < target
    ensures Coalesced(target, Coalesced(target, batches)) == Coalesced(target, batches)
  {
    CoalescedIsCompact(target, batches);
    CompactFixed(target, Coalesced(target, batches));
  }
}
