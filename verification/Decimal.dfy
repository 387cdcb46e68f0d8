/** Decimal numerals: printing a number, reading it back, and the place-value
    law that moving a decimal point rests on. */
module Decimal {

  function Pow10(n: nat): (r: nat)
    ensures 0 < r
  {
    if n == 0 then 1 else 10 * Pow10(n - 1)
  }

  lemma {:induction false} PowAdd(a: nat, b: nat)
    ensures Pow10(a + b) == Pow10(a) * Pow10(b)
  {
    if a > 0 {
      PowAdd(a - 1, b);
      assert Pow10(a + b) == 10 * Pow10(a + b - 1);
      assert 10 * (Pow10(a - 1) * Pow10(b)) == (10 * Pow10(a - 1)) * Pow10(b);
    }
  }

  lemma {:induction false} PowGrows(a: nat, b: nat)
    requires a <= b
    ensures Pow10(a) <= Pow10(b)
    decreases b
  {
    if a < b {
      PowGrows(a, b - 1);
    }
  }

  predicate IsDigit(c: char) {
    '0' <= c <= '9'
  }

  predicate AllDigits(s: string) {
    forall i :: 0 <= i < |s| ==> IsDigit(s[i])
  }

  function DigitVal(c: char): (d: nat)
    requires IsDigit(c)
    ensures d < 10
  {
    (c - '0') as int
  }

  function DigitChar(d: nat): (c: char)
    requires d < 10
    ensures IsDigit(c) && DigitVal(c) == d
  {
    '0' + d as char
  }

  /** The number a string of digits denotes. */
  function Val(s: string): nat
    requires AllDigits(s)
  {
    if s == [] then 0 else Val(s[..|s| - 1]) * 10 + DigitVal(s[|s| - 1])
  }

  /** The canonical numeral of a number. */
  function Dec(n: nat): (s: string)
    ensures s != [] && AllDigits(s)
  {
    if n < 10 then [DigitChar(n)] else Dec(n / 10) + [DigitChar(n % 10)]
  }

  function Zeros(n: nat): (s: string)
    ensures |s| == n && AllDigits(s)
  {
    if n == 0 then [] else Zeros(n - 1) + ['0']
  }

  /** Reading undoes printing. */
  lemma {:induction false} ValDec(n: nat)
    ensures Val(Dec(n)) == n
  {
    if n < 10 {
      assert [DigitChar(n)][..0] == [];
    } else {
      ValDec(n / 10);
      var s := Dec(n / 10);
      assert (s + [DigitChar(n % 10)])[..|s|] == s;
    }
  }

  lemma {:induction false} ValZeros(n: nat)
    ensures Val(Zeros(n)) == 0
  {
    if n > 0 {
      ValZeros(n - 1);
      assert Zeros(n)[..n - 1] == Zeros(n - 1);
    }
  }

  /** Place value. */
  lemma {:induction false} ValAppend(a: string, b: string)
    requires AllDigits(a) && AllDigits(b)
    ensures AllDigits(a + b) && Val(a + b) == Val(a) * Pow10(|b|) + Val(b)
    decreases |b|
  {
    if b == [] {
      assert a + b == a;
    } else {
      var n := |b| - 1;
      var c := b[..n];
      ValAppend(a, c);
      assert (a + b)[..|a + b| - 1] == a + c;
      assert Val(a + b) == (Val(a) * Pow10(n) + Val(c)) * 10 + DigitVal(b[n]);
      Scale(Val(a), Pow10(n));
    }
  }

  lemma {:induction false} Scale(x: nat, p: nat)
    ensures (x * p) * 10 == x * (10 * p)
  {
  }

  lemma {:induction false} ValBound(s: string)
    requires AllDigits(s)
    ensures Val(s) < Pow10(|s|)
  {
    if s != [] {
      ValBound(s[..|s| - 1]);
    }
  }

  /** A number below 10^k prints with at most k digits. */
  lemma {:induction false} DecLength(n: nat, k: nat)
    requires n < Pow10(k) && 0 < k
    ensures |Dec(n)| <= k
  {
    if n >= 10 {
      assert k > 1 by {
        assert Pow10(1) == 10 * Pow10(0);
      }
      DecLength(n / 10, k - 1);
    }
  }

  /** Leading digits of a string. */
  function Run(s: string): (n: nat)
    ensures n <= |s| && AllDigits(s[..n]) && (n < |s| ==> !IsDigit(s[n]))
  {
    if s == [] || !IsDigit(s[0]) then 0
    else
      var n := Run(s[1..]);
      assert s[..n + 1] == [s[0]] + s[1..][..n];
      n + 1
  }

  lemma {:induction false} RunIs(a: string, b: string)
    requires AllDigits(a) && (b == [] || !IsDigit(b[0]))
    ensures Run(a + b) == |a|
  {
    if a == [] {
      assert a + b == b;
    } else {
      assert (a + b)[1..] == a[1..] + b;
      RunIs(a[1..], b);
    }
  }

  /** The digit loop: stops at the first character that is not a digit. */
  method ScanDigits(s: string, start: nat) returns (pos: nat)
    requires start <= |s|
    ensures pos == start + Run(s[start..])
  {
    pos := start;
    while pos < |s| && IsDigit(s[pos])
      invariant start <= pos <= |s| && AllDigits(s[start..pos])
    {
      assert s[start..pos + 1] == s[start..pos] + [s[pos]];
      pos := pos + 1;
    }
    assert s[start..] == s[start..pos] + s[pos..];
    RunIs(s[start..pos], s[pos..]);
  }
}
