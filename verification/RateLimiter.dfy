/** The shared rate limiter: a cursor on a common timeline from which every caller
    reserves the next free slot.  Time is real-valued, in seconds. */
module RateLimiter {

  datatype Request = Request(units: nat, now: real)

  function Max(a: real, b: real): real {
    if a < b then b else a
  }

  class RateLimiter {
    const rate: real  // units per second
    var nextAvailable: real

    constructor (unitsPerSec: nat, now: real)
      ensures rate == unitsPerSec as real && nextAvailable == now
    {
      rate := unitsPerSec as real;
      nextAvailable := now;
    }

    /** The caller read its clock before it got the lock, so `now` may be earlier
        than that of a caller served before. */
    method Reserve(units: nat, now: real) returns (wait: real)
      modifies this
      ensures units == 0 || rate <= 0.0 ==> wait == 0.0 && nextAvailable == old(nextAvailable)
      ensures units > 0 && rate > 0.0 ==>
        var r := [Request(units, now)];
        && now + wait == Starts(rate, old(nextAvailable), r)[0]
        && nextAvailable == Cursor(rate, old(nextAvailable), r)
      ensures wait >= 0.0
    {
      if units == 0 || rate <= 0.0 {
        return 0.0;
      }
      var cost := units as real / rate;
      var start := Max(nextAvailable, now);
      nextAvailable := start + cost;
      wait := if start < now then 0.0 else start - now;
      assert [Request(units, now)][1..] == [];
    }
  }

  // ---------------------------------------------------------------------
  // Sequences of reservations, in the order in which they got the lock.
  // ---------------------------------------------------------------------

  function Cost(rate: real, r: Request): real
    requires rate > 0.0
  {
    r.units as real / rate
  }

  /** The cursor after serving `reqs`. */
  function Cursor(rate: real, next: real, reqs: seq<Request>): real
    requires rate > 0.0
    decreases |reqs|
  {
    if reqs == [] then next else Cursor(rate, Max(next, reqs[0].now) + Cost(rate, reqs[0]), reqs[1..])
  }

  /** When each of them may proceed. */
  function Starts(rate: real, next: real, reqs: seq<Request>): (s: seq<real>)
    requires rate > 0.0
    ensures |s| == |reqs|
    decreases |reqs|
  {
    if reqs == [] then []
    else [Max(next, reqs[0].now)] + Starts(rate, Max(next, reqs[0].now) + Cost(rate, reqs[0]), reqs[1..])
  }

  function Units(reqs: seq<Request>): nat {
    if reqs == [] then 0 else reqs[0].units + Units(reqs[1..])
  }

  /** The request finds the cursor at or ahead of its clock. */
  predicate Backlogged(rate: real, next: real, reqs: seq<Request>, k: nat)
    requires rate > 0.0 && k < |reqs|
  {
    reqs[k].now <= Cursor(rate, next, reqs[..k])
  }

  lemma {:induction false} CursorSnoc(rate: real, next: real, reqs: seq<Request>, k: nat)
    requires rate > 0.0 && k < |reqs|
    ensures Starts(rate, next, reqs)[k] == Max(Cursor(rate, next, reqs[..k]), reqs[k].now)
    ensures Cursor(rate, next, reqs[..k + 1]) == Starts(rate, next, reqs)[k] + Cost(rate, reqs[k])
    decreases k
  {
    assert reqs[..k + 1][1..] == reqs[1..][..k];
    if k == 0 {
      assert reqs[..0] == [] && reqs[..1][1..] == [];
    } else {
      assert reqs[..k][1..] == reqs[1..][..k - 1];
      CursorSnoc(rate, Max(next, reqs[0].now) + Cost(rate, reqs[0]), reqs[1..], k - 1);
    }
  }

  lemma {:induction false} UnitsSnoc(reqs: seq<Request>, r: Request)
    ensures Units(reqs + [r]) == Units(reqs) + r.units
  {
    if reqs == [] {
      assert [] + [r] == [r] && [r][1..] == [];
    } else {
      assert (reqs + [r])[1..] == reqs[1..] + [r];
      UnitsSnoc(reqs[1..], r);
    }
  }

  lemma {:induction false} UnitsUpto(reqs: seq<Request>, i: nat, m: nat)
    requires i <= m < |reqs|
    ensures Units(reqs[i..m + 1]) as real == Units(reqs[i..m]) as real + reqs[m].units as real
  {
    assert reqs[i..m + 1] == reqs[i..m] + [reqs[m]];
    UnitsSnoc(reqs[i..m], reqs[m]);
  }

  /** No start precedes its caller's clock. */
  lemma {:induction false} NeverEarly(rate: real, next: real, reqs: seq<Request>, k: nat)
    requires rate > 0.0 && k < |reqs|
    ensures next <= Starts(rate, next, reqs)[k] && reqs[k].now <= Starts(rate, next, reqs)[k]
    decreases k
  {
    CursorSnoc(rate, next, reqs, k);
    if k > 0 {
      CursorSnoc(rate, next, reqs, k - 1);
      NeverEarly(rate, next, reqs, k - 1);
      CostPays(rate, reqs[k - 1]);
    }
  }

  lemma {:induction false} CostPays(rate: real, r: Request)
    requires rate > 0.0
    ensures Share(rate, 0.0, Cost(rate, r)) == r.units as real && Cost(rate, r) >= 0.0
  {
  }

  /** The units the rate allows between two instants. */
  function Share(rate: real, from: real, to: real): real {
    rate * (to - from)
  }

  lemma {:induction false} NoShare(rate: real, at: real)
    ensures Share(rate, at, at) == 0.0
  {
  }

  /** Rate bound: the units reserved from `i` up to but not including `j` fit into
      the time between their starts, whatever the clock readings.  The bound is met
      with equality exactly if every later request was backlogged, so idle time is
      never paid back as a burst. */
  lemma {:induction false} RateBound(rate: real, next: real, reqs: seq<Request>, i: nat, j: nat)
    requires rate > 0.0 && i <= j < |reqs|
    ensures var s := Starts(rate, next, reqs);
      Units(reqs[i..j]) as real <= rate * (s[j] - s[i])
    ensures var s := Starts(rate, next, reqs);
      Units(reqs[i..j]) as real == rate * (s[j] - s[i]) <==> forall k :: i < k <= j ==> Backlogged(rate, next, reqs, k)
  {
    hide Starts;
    hide Units;
    hide Backlogged;
    ShareBound(rate, next, reqs, i, j);
  }

  lemma {:induction false} ShareBound(rate: real, next: real, reqs: seq<Request>, i: nat, j: nat)
    requires rate > 0.0 && i <= j < |reqs|
    ensures var s := Starts(rate, next, reqs);
      Units(reqs[i..j]) as real <= Share(rate, s[i], s[j])
    ensures var s := Starts(rate, next, reqs);
      Units(reqs[i..j]) as real == Share(rate, s[i], s[j]) <==> forall k :: i < k <= j ==> Backlogged(rate, next, reqs, k)
    decreases j
  {
    hide Starts;
    hide Cursor;
    hide Cost;
    hide Share;
    var s := Starts(rate, next, reqs);
    if i < j {
      var m := j - 1;
      ShareBound(rate, next, reqs, i, m);
      hide Units;
      UnitsUpto(reqs, i, m);
      CursorSnoc(rate, next, reqs, m);
      CursorSnoc(rate, next, reqs, j);
      CostPays(rate, reqs[m]);
      Gap(rate, s[i], s[m], Cost(rate, reqs[m]), s[j]);
      assert Backlogged(rate, next, reqs, j) <==> s[m] + Cost(rate, reqs[m]) == s[j];
      hide Backlogged;
    } else {
      assert reqs[i..j] == [];
      NoShare(rate, s[i]);
    }
  }

  lemma {:induction false} Gap(rate: real, si: real, sm: real, cost: real, sj: real)
    requires rate > 0.0 && sm + cost <= sj
    ensures Share(rate, si, sm) + Share(rate, 0.0, cost) <= Share(rate, si, sj)
    ensures Share(rate, si, sm) + Share(rate, 0.0, cost) == Share(rate, si, sj) <==> sm + cost == sj
  {
    var gap := sj - sm - cost;
    assert Share(rate, si, sj) - (Share(rate, si, sm) + Share(rate, 0.0, cost)) == rate * gap;
    assert gap > 0.0 ==> rate * gap > 0.0;
  }

  /** Hence in any window of time no more than its share of units is reserved. */
  lemma {:induction false} WindowBound(rate: real, next: real, reqs: seq<Request>, i: nat, j: nat, from: real, to: real)
    requires rate > 0.0 && i <= j < |reqs|
    requires from <= Starts(rate, next, reqs)[i] && Starts(rate, next, reqs)[j] <= to
    ensures Units(reqs[i..j]) as real <= rate * (to - from)
  {
    hide Starts;
    hide Cursor;
    hide Units;
    var s := Starts(rate, next, reqs);
    ShareBound(rate, next, reqs, i, j);
    Wider(rate, from, s[i], s[j], to);
  }

  lemma {:induction false} Wider(rate: real, from: real, a: real, b: real, to: real)
    requires rate > 0.0 && from <= a && b <= to
    ensures Share(rate, a, b) <= Share(rate, from, to)
  {
    var gap := (to - from) - (b - a);
    assert Share(rate, from, to) - Share(rate, a, b) == rate * gap;
    assert gap >= 0.0 && rate * gap >= 0.0;
  }

  /** A timetable that respects the rate, the initial cursor and every clock. */
  ghost predicate Respects(rate: real, next: real, reqs: seq<Request>, t: seq<real>)
    requires rate > 0.0
  {
    && |t| == |reqs|
    && (forall k :: 0 <= k < |t| ==> next <= t[k] && reqs[k].now <= t[k])
    && (forall k, l :: 0 <= k < l < |t| && l == k + 1 ==> t[k] + Cost(rate, reqs[k]) <= t[l])
  }

  lemma {:induction false} StartsRespect(rate: real, next: real, reqs: seq<Request>)
    requires rate > 0.0
    ensures Respects(rate, next, reqs, Starts(rate, next, reqs))
  {
    var s := Starts(rate, next, reqs);
    forall k | 0 <= k < |s|
      ensures next <= s[k] && reqs[k].now <= s[k]
    {
      NeverEarly(rate, next, reqs, k);
    }
    forall k, l | 0 <= k < l < |s| && l == k + 1
      ensures s[k] + Cost(rate, reqs[k]) <= s[l]
    {
      CursorSnoc(rate, next, reqs, k);
      CursorSnoc(rate, next, reqs, l);
    }
  }

  /** The limiter never delays anyone longer than the rate demands: its starts are
      the earliest among all timetables for the same order of callers. */
  lemma {:induction false} EarliestStarts(rate: real, next: real, reqs: seq<Request>, t: seq<real>, k: nat)
    requires rate > 0.0 && Respects(rate, next, reqs, t) && k < |reqs|
    ensures Starts(rate, next, reqs)[k] <= t[k]
    decreases k
  {
    CursorSnoc(rate, next, reqs, k);
    if k == 0 {
      assert reqs[..0] == [];
    } else {
      CursorSnoc(rate, next, reqs, k - 1);
      EarliestStarts(rate, next, reqs, t, k - 1);
      assert t[k - 1] + Cost(rate, reqs[k - 1]) <= t[k];
    }
  }
}
