/** Collections shared by the models: options, least elements of finite sets of
    numbers, and the ascending listing of such a set. */
module Prelude {

  datatype Option<+T> = None | Some(value: T)

  const U32_MAX: nat := 0xFFFF_FFFF
  const U64_MAX: nat := 0xFFFF_FFFF_FFFF_FFFF

  function Elems<T>(s: seq<T>): set<T> {
    set x | x in s
  }

  lemma {:induction false} ElemsEmpty<T>(s: seq<T>)
    ensures Elems(s) == {} <==> s == []
  {
    if s != [] {
      assert s[0] in Elems(s);
    }
  }

  ghost predicate Distinct<T>(s: seq<T>) {
    forall i, j :: 0 <= i < j < |s| ==> s[i] != s[j]
  }

  ghost predicate Ascending(s: seq<nat>) {
    forall i, j :: 0 <= i < j < |s| ==> s[i] < s[j]
  }

  /** The concatenation of a list of lists. */
  function Flat<T>(ss: seq<seq<T>>): seq<T> {
    if ss == [] then [] else ss[0] + Flat(ss[1..])
  }

  lemma {:induction false} FlatAppend<T>(a: seq<seq<T>>, b: seq<seq<T>>)
    ensures Flat(a + b) == Flat(a) + Flat(b)
  {
    if a == [] {
      assert a + b == b;
    } else {
      assert (a + b)[1..] == a[1..] + b;
      FlatAppend(a[1..], b);
    }
  }

  lemma {:induction false} FlatSingle<T>(s: seq<T>)
    ensures Flat([s]) == s
  {
    assert Flat([s]) == s + Flat([]);
  }

  lemma {:induction false} FlatSnoc<T>(a: seq<seq<T>>, s: seq<T>)
    ensures Flat(a + [s]) == Flat(a) + s
  {
    FlatAppend(a, [s]);
    FlatSingle(s);
  }

  lemma {:induction false} LeastExists(s: set<nat>) returns (m: nat)
    requires s != {}
    ensures m in s && forall x :: x in s ==> m <= x
  {
    var y :| y in s;
    var r := s - {y};
    assert forall x :: x in s ==> x == y || x in r;
    m := y;
    if r != {} {
      var l := LeastExists(r);
      if l < y {
        m := l;
      }
    }
  }

  function Least(s: set<nat>): (m: nat)
    requires s != {}
    ensures m in s && forall x :: x in s ==> m <= x
  {
    assert exists m :: m in s && forall x :: x in s ==> m <= x by {
      var m := LeastExists(s);
    }
    var m :| m in s && forall x :: x in s ==> m <= x;
    m
  }

  /** A set of numbers as its strictly ascending list. */
  function Sorted(s: set<nat>): seq<nat> {
    if s == {} then [] else [Least(s)] + Sorted(s - {Least(s)})
  }

  lemma {:induction false} SortedIs(s: set<nat>)
    ensures Ascending(Sorted(s)) && Elems(Sorted(s)) == s && |Sorted(s)| == |s|
  {
    if s == {} {
      assert Elems<nat>([]) == {};
    } else {
      SortedIs(s - {Least(s)});
      SortedIsStep(s, Least(s), Sorted(s - {Least(s)}));
    }
  }

  lemma {:induction false} SortedIsStep(s: set<nat>, m: nat, rest: seq<nat>)
    requires m in s && forall x :: x in s ==> m <= x
    requires Ascending(rest) && Elems(rest) == s - {m} && |rest| == |s - {m}|
    ensures Ascending([m] + rest) && Elems([m] + rest) == s && |[m] + rest| == |s|
  {
    ElemsCons(m, rest);
    assert {m} + (s - {m}) == s;
    AscendingCons(m, rest);
  }

  lemma {:induction false} ElemsCons<T>(x: T, rest: seq<T>)
    ensures Elems([x] + rest) == {x} + Elems(rest)
  {
  }

  lemma {:induction false} AscendingCons(m: nat, rest: seq<nat>)
    requires Ascending(rest) && forall x :: x in Elems(rest) ==> m < x
    ensures Ascending([m] + rest)
  {
    forall i, j | 0 <= i < j < |[m] + rest|
      ensures ([m] + rest)[i] < ([m] + rest)[j]
    {
      assert rest[j - 1] in Elems(rest);
    }
  }

  lemma {:induction false} AscendingUnique(a: seq<nat>, b: seq<nat>)
    requires Ascending(a) && Ascending(b) && Elems(a) == Elems(b)
    ensures a == b
  {
    if a == [] {
      ElemsEmpty(b);
    } else {
      assert a[0] in Elems(a);
      assert b != [];
      assert b[0] in Elems(b);
      assert a[0] in b && b[0] in a;
      assert a[0] == b[0];
      var x := a[0];
      assert Elems(a[1..]) == Elems(a) - {x} by { TailElems(a); }
      assert Elems(b[1..]) == Elems(b) - {x} by { TailElems(b); }
      AscendingUnique(a[1..], b[1..]);
      assert a == [x] + a[1..] && b == [x] + b[1..];
    }
  }

  lemma {:induction false} TailElems(a: seq<nat>)
    requires a != [] && Ascending(a)
    ensures Elems(a[1..]) == Elems(a) - {a[0]}
  {
    forall x | x in Elems(a) - {a[0]}
      ensures x in a[1..]
    {
      var i :| 0 <= i < |a| && a[i] == x;
      assert a[1..][i - 1] == x;
    }
  }

  lemma {:induction false} Cancel<T>(a: multiset<T>, b: multiset<T>, x: T)
    requires a + multiset{x} == b + multiset{x}
    ensures a == b
  {
    assert a == (a + multiset{x}) - multiset{x};
    assert b == (b + multiset{x}) - multiset{x};
  }

  lemma {:induction false} DistinctCard<T>(s: seq<T>)
    requires Distinct(s)
    ensures |Elems(s)| == |s|
  {
    if s == [] {
      assert Elems(s) == {};
    } else {
      var r := s[1..];
      DistinctCard(r);
      assert s[0] !in r;
      assert Elems(s) == {s[0]} + Elems(r);
    }
  }

  lemma {:induction false} SubsetCard<T>(a: set<T>, b: set<T>)
    requires a <= b
    ensures |a| <= |b|
    ensures |a| == |b| ==> a == b
  {
    assert b == a + (b - a);
    assert |b| == |a| + |b - a|;
  }

  lemma {:induction false} SortedCons(s: set<nat>, m: nat)
    requires m in s && forall x :: x in s ==> m <= x
    ensures Sorted(s) == [m] + Sorted(s - {m})
  {
  }

  /** An ascending list in front of what follows it. */
  lemma {:induction false} SortedPrepend(a: seq<nat>, s: set<nat>)
    requires Ascending(a + Sorted(s))
    ensures Sorted(Elems(a) + s) == a + Sorted(s)
  {
    var r := a + Sorted(s);
    SortedIs(s);
    SortedIs(Elems(a) + s);
    assert Elems(r) == Elems(a) + s by {
      assert forall x :: x in r <==> x in a || x in Sorted(s);
      assert forall x :: x in Elems(Sorted(s)) <==> x in s;
    }
    AscendingUnique(Sorted(Elems(a) + s), r);
  }

  lemma {:induction false} AscendingParts(a: seq<nat>, b: seq<nat>)
    requires Ascending(a + b)
    ensures Ascending(a) && Ascending(b)
    ensures forall x, y :: x in a && y in b ==> x < y
  {
    var s := a + b;
    forall i, j | 0 <= i < j < |a|
      ensures a[i] < a[j]
    {
      assert s[i] < s[j];
    }
    forall i, j | 0 <= i < j < |b|
      ensures b[i] < b[j]
    {
      assert s[|a| + i] < s[|a| + j];
    }
    forall x, y | x in a && y in b
      ensures x < y
    {
      var i :| 0 <= i < |a| && a[i] == x;
      var j :| 0 <= j < |b| && b[j] == y;
      assert s[i] < s[|a| + j];
    }
  }

  // ---------------------------------------------------------------------
  // Sums over a list.
  // ---------------------------------------------------------------------

  ghost function Sum<T>(us: seq<T>, f: T -> nat): nat {
    if us == [] then 0 else f(us[0]) + Sum(us[1..], f)
  }

  lemma {:induction false} SumSame<T>(us: seq<T>, f: T -> nat, g: T -> nat)
    requires forall u :: u in us ==> f(u) == g(u)
    ensures Sum(us, f) == Sum(us, g)
  {
    if us != [] {
      SumSame(us[1..], f, g);
    }
  }

  /** Only the summand of `t` changes. */
  lemma {:induction false} SumOne<T>(us: seq<T>, f: T -> nat, g: T -> nat, t: T)
    requires Distinct(us) && t in us
    requires forall u :: u in us && u != t ==> f(u) == g(u)
    ensures Sum(us, g) + f(t) == Sum(us, f) + g(t)
  {
    assert us == [us[0]] + us[1..];
    if us[0] == t {
      assert t !in us[1..];
      SumSame(us[1..], f, g);
    } else {
      SumOne(us[1..], f, g, t);
    }
  }

  lemma {:induction false} SumBalance<T>(us: seq<T>, f: T -> nat, g: T -> nat, h: T -> nat, k: T -> nat)
    requires forall u :: u in us ==> f(u) + g(u) == h(u) + k(u)
    ensures Sum(us, f) + Sum(us, g) == Sum(us, h) + Sum(us, k)
  {
    if us != [] {
      SumBalance(us[1..], f, g, h, k);
    }
  }

  ghost function Member<T>(ts: seq<T>): T -> nat {
    (t: T) => if t in ts then 1 else 0
  }

  lemma {:induction false} SumMember<T>(us: seq<T>, ts: seq<T>)
    requires Distinct(us) && Distinct(ts) && Elems(ts) <= Elems(us)
    ensures Sum(us, Member(ts)) == |ts|
  {
    SumMemberCard(us, ts);
    assert (set u | u in us && u in ts) == Elems(ts) by {
      assert forall x :: x in Elems(ts) ==> x in Elems(us);
    }
    DistinctCard(ts);
  }

  lemma {:induction false} SumMemberCard<T>(us: seq<T>, ts: seq<T>)
    requires Distinct(us)
    ensures Sum(us, Member(ts)) == |set u | u in us && u in ts|
  {
    var both := set u | u in us && u in ts;
    if us == [] {
      assert both == {};
    } else {
      var x, rest := us[0], us[1..];
      SumMemberCard(rest, ts);
      assert x !in rest;
      var tail := set u | u in rest && u in ts;
      assert us == [x] + rest;
      if x in ts {
        assert both == tail + {x};
      } else {
        assert both == tail;
      }
    }
  }

  /** `s` spells `word`, a lower-case text, in any mixture of cases. */
  predicate Spells(s: string, word: string) {
    |s| == |word| &&
    forall i :: 0 <= i < |s| ==> s[i] == word[i] || ('a' <= word[i] <= 'z' && s[i] == word[i] - 'a' + 'A')
  }
}
