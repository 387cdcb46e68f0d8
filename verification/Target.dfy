/** What the source rows leave in the target, in closed form and on their `_op` texts
    alone: everything before a key's last delete is gone, its last update after that
    sets the value of all rows it then has, and what is inserted later comes on top. */
module Target {
  import opened Prelude
  import opened Records
  import opened Replay
  import W = Writer

  /** The rows of one key. */
  function Own(rows: seq<Row>, k: Key): seq<Row> {
    if rows == [] then [] else (if rows[0].key == k then [rows[0]] else []) + Own(rows[1..], k)
  }

  /** The place of the last row whose `_op` text is `op`, or -1. */
  function LastAt(sc: Schema, rows: seq<Row>, op: string): (i: int)
    ensures -1 <= i < |rows| && (0 <= i ==> Says(sc, rows[i], op))
  {
    var n := |rows| - 1;
    if rows == [] then -1 else if Says(sc, rows[n], op) then n else LastAt(sc, rows[..n], op)
  }

  /** The values of the rows that are neither updates nor deletes. */
  function Inserted(sc: Schema, rows: seq<Row>): Bag {
    var n := |rows| - 1;
    if rows == [] then multiset{}
    else Inserted(sc, rows[..n]) + if Plain(sc, rows[n]) then multiset{rows[n].val} else multiset{}
  }

  function AfterDelete(sc: Schema, own: seq<Row>): seq<Row> {
    own[LastAt(sc, own, "d") + 1..]
  }

  /** The rows a key has before its rows after the last delete are applied. */
  function Base(sc: Schema, own: seq<Row>, b: Bag): Bag {
    if LastAt(sc, own, "d") < 0 then b else multiset{}
  }

  function Overlay(sc: Schema, tail: seq<Row>, base: Bag): Bag {
    var u := LastAt(sc, tail, "u");
    if u < 0 then base + Inserted(sc, tail)
    else Copies(tail[u].val, |base| + |Inserted(sc, tail[..u])|) + Inserted(sc, tail[u + 1..])
  }

  /** What the rows leave of a key that had `b`. */
  function Left(sc: Schema, rows: seq<Row>, k: Key, b: Bag): Bag {
    Overlay(sc, AfterDelete(sc, Own(rows, k)), Base(sc, Own(rows, k), b))
  }

  // ---------------------------------------------------------------------

  lemma {:induction false} LastAtSnoc(sc: Schema, xs: seq<Row>, r: Row, op: string)
    ensures LastAt(sc, xs + [r], op) == if Says(sc, r, op) then |xs| else LastAt(sc, xs, op)
  {
    assert (xs + [r])[..|xs|] == xs;
  }

  lemma {:induction false} InsertedSnoc(sc: Schema, xs: seq<Row>, r: Row)
    ensures Inserted(sc, xs + [r]) == Inserted(sc, xs) + if Plain(sc, r) then multiset{r.val} else multiset{}
  {
    assert (xs + [r])[..|xs|] == xs;
  }

  lemma {:induction false} InsertedAppend(sc: Schema, xs: seq<Row>, ys: seq<Row>)
    ensures Inserted(sc, xs + ys) == Inserted(sc, xs) + Inserted(sc, ys)
    decreases |ys|
  {
    if ys == [] {
      assert xs + ys == xs;
    } else {
      var n := |ys| - 1;
      assert ys == ys[..n] + [ys[n]];
      assert xs + ys == (xs + ys[..n]) + [ys[n]];
      InsertedAppend(sc, xs, ys[..n]);
      InsertedSnoc(sc, xs + ys[..n], ys[n]);
      InsertedSnoc(sc, ys[..n], ys[n]);
    }
  }

  /** The size: what was there plus what was inserted. */
  lemma {:induction false} OverlaySize(sc: Schema, tail: seq<Row>, base: Bag)
    ensures |Overlay(sc, tail, base)| == |base| + |Inserted(sc, tail)|
  {
    var u := LastAt(sc, tail, "u");
    if u >= 0 {
      assert tail == (tail[..u] + [tail[u]]) + tail[u + 1..];
      InsertedAppend(sc, tail[..u] + [tail[u]], tail[u + 1..]);
      InsertedSnoc(sc, tail[..u], tail[u]);
    }
  }

  lemma {:induction false} OverlayUpdate(sc: Schema, tail: seq<Row>, base: Bag, r: Row)
    requires Says(sc, r, "u")
    ensures Overlay(sc, tail + [r], base) == Copies(r.val, |Overlay(sc, tail, base)|)
  {
    OverlaySize(sc, tail, base);
    LastAtSnoc(sc, tail, r, "u");
    assert (tail + [r])[..|tail|] == tail && (tail + [r])[|tail| + 1..] == [];
    InsertedNothing(sc);
    hide Inserted;
    hide LastAt;
    hide Copies;
    var size := |base| + |Inserted(sc, tail)|;
    assert Overlay(sc, tail + [r], base) == Copies(r.val, size) + multiset{};
  }

  lemma {:induction false} InsertedNothing(sc: Schema)
    ensures Inserted(sc, []) == multiset{}
  {
  }

  lemma {:induction false} OverlayInsert(sc: Schema, tail: seq<Row>, base: Bag, r: Row)
    requires Plain(sc, r)
    ensures Overlay(sc, tail + [r], base) == Overlay(sc, tail, base) + multiset{r.val}
  {
    LastAtSnoc(sc, tail, r, "u");
    var u := LastAt(sc, tail, "u");
    if u < 0 {
      InsertedSnoc(sc, tail, r);
    } else {
      assert (tail + [r])[..u] == tail[..u] && (tail + [r])[u + 1..] == tail[u + 1..] + [r] && (tail + [r])[u] == tail[u];
      InsertedSnoc(sc, tail[u + 1..], r);
    }
    hide Inserted;
    hide LastAt;
    hide Copies;
  }

  lemma {:induction false} OverlayNothing(sc: Schema, base: Bag)
    ensures Overlay(sc, [], base) == base
  {
    assert LastAt(sc, [], "u") == -1;
    InsertedNothing(sc);
  }

  /** One more row of the key. */
  lemma {:induction false} SettledSnoc(sc: Schema, own: seq<Row>, b: Bag, r: Row)
    ensures Overlay(sc, AfterDelete(sc, own + [r]), Base(sc, own + [r], b)) ==
      TextEffect(sc, r, r.key, Overlay(sc, AfterDelete(sc, own), Base(sc, own, b)))
  {
    LastAtSnoc(sc, own, r, "d");
    hide LastAt;
    hide Overlay;
    if Says(sc, r, "d") {
      assert AfterDelete(sc, own + [r]) == [];
      OverlayNothing(sc, multiset{});
    } else {
      assert AfterDelete(sc, own + [r]) == AfterDelete(sc, own) + [r];
      assert Base(sc, own + [r], b) == Base(sc, own, b);
      hide AfterDelete;
      hide Base;
      if Says(sc, r, "u") {
        OverlayUpdate(sc, AfterDelete(sc, own), Base(sc, own, b), r);
      } else {
        OverlayInsert(sc, AfterDelete(sc, own), Base(sc, own, b), r);
      }
    }
  }

  lemma {:induction false} OwnSnoc(xs: seq<Row>, r: Row, k: Key)
    ensures Own(xs + [r], k) == Own(xs, k) + if r.key == k then [r] else []
  {
    if xs == [] {
      assert [] + [r] == [r] && [r][1..] == [];
      assert Own([r], k) == (if r.key == k then [r] else []) + Own([], k);
    } else {
      var last := if r.key == k then [r] else [];
      var first := if xs[0].key == k then [xs[0]] else [];
      assert (xs + [r])[1..] == xs[1..] + [r] && (xs + [r])[0] == xs[0];
      assert Own(xs + [r], k) == first + Own(xs[1..] + [r], k);
      assert Own(xs, k) == first + Own(xs[1..], k);
      hide Own;
      OwnSnoc(xs[1..], r, k);
      assert first + (Own(xs[1..], k) + last) == (first + Own(xs[1..], k)) + last;
    }
  }

  lemma {:induction false} FoldSnoc(sc: Schema, xs: seq<Row>, r: Row, k: Key, b: Bag)
    ensures Fold(sc, xs + [r], k, b) == TextEffect(sc, r, k, Fold(sc, xs, k, b))
  {
    FoldAppend(sc, xs, [r], k, b);
    assert [r][1..] == [];
    var m := Fold(sc, xs, k, b);
    assert Fold(sc, [r], k, m) == Fold(sc, [], k, TextEffect(sc, r, k, m));
  }

  /** Applying the rows one by one leaves exactly that. */
  lemma {:induction false} FoldIsLeft(sc: Schema, rows: seq<Row>, k: Key, b: Bag)
    ensures Fold(sc, rows, k, b) == Left(sc, rows, k, b)
    decreases |rows|
  {
    if rows == [] {
      NothingLeft(sc, k, b);
    } else {
      var n := |rows| - 1;
      var init, r := rows[..n], rows[n];
      assert rows == init + [r];
      FoldIsLeft(sc, init, k, b);
      FoldSnoc(sc, init, r, k, b);
      OwnSnoc(init, r, k);
      hide Fold;
      hide Own;
      hide Overlay;
      hide AfterDelete;
      hide Base;
      if r.key == k {
        SettledSnoc(sc, Own(init, k), b, r);
      } else {
        assert Own(init, k) + [] == Own(init, k);
      }
    }
  }

  lemma {:induction false} NothingLeft(sc: Schema, k: Key, b: Bag)
    ensures Left(sc, [], k, b) == b
  {
    assert LastAt(sc, [], "d") == -1 && LastAt(sc, [], "u") == -1;
    assert Inserted(sc, []) == multiset{};
    assert AfterDelete(sc, []) == [];
  }

  /** What a caller reads off: the key has as many rows as were inserted after its last
      delete, plus those it had if there was none; and after a final update all of them
      have its value. */
  ghost predicate Reads(sc: Schema, rows: seq<Row>, k: Key, b: Bag, b': Bag) {
    var own := Own(rows, k);
    && |b'| == |Inserted(sc, AfterDelete(sc, own))| + (if exists i :: 0 <= i < |own| && Says(sc, own[i], "d") then 0 else |b|)
    && (own != [] && Says(sc, own[|own| - 1], "u") ==> b' == Copies(own[|own| - 1].val, |b'|))
    && (own != [] && Says(sc, own[|own| - 1], "d") ==> b' == multiset{})
    && ((forall i :: 0 <= i < |own| ==> Plain(sc, own[i])) ==> b' == b + Inserted(sc, own))
  }

  lemma {:induction false} LastAtNone(sc: Schema, rows: seq<Row>, op: string)
    ensures LastAt(sc, rows, op) < 0 <==> forall i :: 0 <= i < |rows| ==> !Says(sc, rows[i], op)
  {
    if rows != [] && !Says(sc, rows[|rows| - 1], op) {
      LastAtNone(sc, rows[..|rows| - 1], op);
    }
  }

  lemma {:induction false} LeftReads(sc: Schema, rows: seq<Row>, k: Key, b: Bag)
    ensures Reads(sc, rows, k, b, Left(sc, rows, k, b))
  {
    hide Own, Overlay, AfterDelete, LastAt, Inserted, Copies;
    var own := Own(rows, k);
    OverlaySize(sc, AfterDelete(sc, own), Base(sc, own, b));
    LastAtNone(sc, own, "d");
    if own != [] {
      LastReads(sc, own, b);
    }
    if forall i :: 0 <= i < |own| ==> Plain(sc, own[i]) {
      OnlyInserts(sc, own, b);
    }
  }

  lemma {:induction false} OnlyInserts(sc: Schema, own: seq<Row>, b: Bag)
    requires forall i :: 0 <= i < |own| ==> Plain(sc, own[i])
    ensures Overlay(sc, AfterDelete(sc, own), Base(sc, own, b)) == b + Inserted(sc, own)
  {
    LastAtNone(sc, own, "d");
    LastAtNone(sc, own, "u");
    hide LastAt;
    hide Inserted;
    assert AfterDelete(sc, own) == own;
  }

  lemma {:induction false} LastReads(sc: Schema, own: seq<Row>, b: Bag)
    requires own != []
    ensures var r, b' := own[|own| - 1], Overlay(sc, AfterDelete(sc, own), Base(sc, own, b));
      (Says(sc, r, "u") ==> b' == Copies(r.val, |b'|)) && (Says(sc, r, "d") ==> b' == multiset{})
  {
    var n := |own| - 1;
    assert own == own[..n] + [own[n]];
    SettledSnoc(sc, own[..n], b, own[n]);
    hide Overlay;
    hide AfterDelete;
    hide Base;
  }

  // ---------------------------------------------------------------------
  // The net ledger on the texts.
  // ---------------------------------------------------------------------

  /** How many rows say `op`. */
  function NumSaying(sc: Schema, rows: seq<Row>, op: string): nat {
    if rows == [] then 0 else (if Says(sc, rows[0], op) then 1 else 0) + NumSaying(sc, rows[1..], op)
  }

  function NumPlain(sc: Schema, rows: seq<Row>): nat {
    if rows == [] then 0 else (if Plain(sc, rows[0]) then 1 else 0) + NumPlain(sc, rows[1..])
  }

  /** The balance is the rows that are neither updates nor deletes, minus the deletes. */
  lemma {:induction false} NetCounts(sc: Schema, rows: seq<Row>)
    ensures W.RowsNet(sc, rows) == NumPlain(sc, rows) - NumSaying(sc, rows, "d")
    ensures NumPlain(sc, rows) + NumSaying(sc, rows, "u") + NumSaying(sc, rows, "d") == |rows|
  {
    if rows != [] {
      NetCounts(sc, rows[1..]);
    }
  }

  /** Concurrent writes of any coalesced batches leave what the `_op` texts say. */
  lemma {:induction false} BatchesLeave(sc: Schema, sort: seq<Row> -> seq<Row>, size: nat, batches: seq<RecordBatch>, k: Key, b: Bag, b': Bag)
    requires Sorts(sort) && Replayable(sc, Flat(batches), k)
    requires BatchesWrite(sc, sort, size, batches, k, b, b')
    ensures b' == Left(sc, Flat(batches), k, b) && Reads(sc, Flat(batches), k, b, b')
  {
    MeaningPreserved(sc, sort, size, batches, k, b, b');
    hide BatchesWrite;
    hide Replayable;
    hide Left;
    hide Reads;
    hide Fold;
    FoldIsLeft(sc, Flat(batches), k, b);
    LeftReads(sc, Flat(batches), k, b);
  }

  /** The example every reader expects: insert, then update, on an empty key. */
  lemma {:induction false} InsertThenUpdate(k: Key, v: Val, w: Val)
    ensures var rows := [Row("c", 1, k, v), Row("u", 2, k, w)];
      Left(MUTATING, rows, k, multiset{}) == multiset{w} && W.RowsNet(MUTATING, rows) == 1
  {
    var c, u := Row("c", 1, k, v), Row("u", 2, k, w);
    var none: Bag := multiset{};
    FoldIsLeft(MUTATING, [c, u], k, none);
    assert [c, u][1..] == [u] && [u][1..] == [];
    assert Fold(MUTATING, [c, u], k, none) == Fold(MUTATING, [u], k, multiset{v});
    assert Fold(MUTATING, [u], k, multiset{v}) == Fold(MUTATING, [], k, Copies(w, 1));
    assert W.RowsNet(MUTATING, [u]) == 0 + W.RowsNet(MUTATING, []);
  }
}
