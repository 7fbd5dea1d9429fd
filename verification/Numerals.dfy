/**
 Numerals in a base, most significant digit first: their value, the digits of a
 value, and the agreement of numeric with lexicographic order.
 */
module Numerals {
  function Pow(b: nat, n: nat): nat {
    if n == 0 then 1 else b * Pow(b, n - 1)
  }

  predicate Are(b: nat, ds: seq<nat>) {
    forall i :: 0 <= i < |ds| ==> ds[i] < b
  }

  function Value(b: nat, ds: seq<nat>): nat {
    if ds == [] then 0 else Value(b, ds[..|ds| - 1]) * b + ds[|ds| - 1]
  }

  function Quotient(v: nat, b: nat): nat
    requires b > 0
  {
    v / b
  }

  function Remainder(v: nat, b: nat): (r: nat)
    requires b > 0
    ensures r < b
  {
    v % b
  }

  /** The low `n` digits of `v`. */
  function Digits(b: nat, v: nat, n: nat): (ds: seq<nat>)
    requires b > 0
    ensures |ds| == n && Are(b, ds)
    decreases n, v
  {
    if n == 0 then [] else Digits(b, Quotient(v, b), n - 1) + [Remainder(v, b)]
  }

  lemma Scale(x: nat, y: nat, k: nat)
    requires x < y
    ensures x * k + k <= y * k
  {
    assert (x + 1) * k <= y * k;
  }

  lemma {:induction false} PowPositive(b: nat, n: nat)
    requires b > 0
    ensures Pow(b, n) > 0
    decreases n
  {
    if n > 0 {
      PowPositive(b, n - 1);
    }
  }

  lemma Associate(x: nat, y: nat, z: nat)
    ensures x * (y * z) == (x * y) * z
  {
  }

  lemma {:induction false} PowSum(b: nat, m: nat, n: nat)
    ensures Pow(b, m + n) == Pow(b, m) * Pow(b, n)
    decreases m
  {
    if m > 0 {
      PowSum(b, m - 1, n);
      Associate(b, Pow(b, m - 1), Pow(b, n));
    }
  }

  /** A power of a power. */
  lemma {:induction false} PowTimes(b: nat, k: nat, c: nat, n: nat)
    requires Pow(b, k) == c
    ensures Pow(b, k * n) == Pow(c, n)
    decreases n
  {
    if n > 0 {
      PowTimes(b, k, c, n - 1);
      assert k * n == k + k * (n - 1);
      PowSum(b, k, k * (n - 1));
    }
  }

  lemma Distribute(x: nat, p: nat, y: nat, b: nat)
    ensures (x * p + y) * b == x * (b * p) + y * b
  {
  }

  lemma BelowProduct(x: nat, p: nat, d: nat, b: nat)
    requires x < p && d < b
    ensures x * b + d < b * p
  {
    Scale(x, p, b);
    assert p * b == b * p;
  }

  lemma {:induction false} ValueBelow(b: nat, ds: seq<nat>)
    requires b > 0 && Are(b, ds)
    ensures Value(b, ds) < Pow(b, |ds|)
    decreases |ds|
  {
    if ds != [] {
      var front := ds[..|ds| - 1];
      ValueBelow(b, front);
      BelowProduct(Value(b, front), Pow(b, |front|), ds[|ds| - 1], b);
    }
  }

  lemma {:induction false} ValueConcat(b: nat, xs: seq<nat>, ys: seq<nat>)
    ensures Value(b, xs + ys) == Value(b, xs) * Pow(b, |ys|) + Value(b, ys)
    decreases |ys|
  {
    if ys == [] {
      assert xs + ys == xs;
    } else {
      var front, n := ys[..|ys| - 1], |ys| - 1;
      assert (xs + ys)[..|xs + ys| - 1] == xs + front;
      ValueConcat(b, xs, front);
      Distribute(Value(b, xs), Pow(b, n), Value(b, front), b);
    }
  }

  /** Digits and value are inverse. */
  lemma {:induction false} DigitsOfValue(b: nat, ds: seq<nat>)
    requires b > 0 && Are(b, ds)
    ensures Digits(b, Value(b, ds), |ds|) == ds
    decreases |ds|
  {
    if ds != [] {
      var front, d := ds[..|ds| - 1], ds[|ds| - 1];
      DigitsOfValue(b, front);
      Carry(b, Value(b, front), d);
      assert ds == front + [d];
    }
  }

  lemma Division(v: nat, b: nat)
    requires b > 0
    ensures v == Quotient(v, b) * b + Remainder(v, b)
  {
  }

  lemma Carry(b: nat, q: nat, d: nat)
    requires d < b
    ensures Quotient(q * b + d, b) == q && Remainder(q * b + d, b) == d
  {
    Division(q * b + d, b);
    SameQuotient(b, q, d, Quotient(q * b + d, b), Remainder(q * b + d, b));
  }

  lemma SameQuotient(b: nat, q: nat, d: nat, p: nat, e: nat)
    requires d < b && e < b && q * b + d == p * b + e
    ensures q == p && d == e
  {
    if q < p { Scale(q, p, b); } else if p < q { Scale(p, q, b); }
  }

  /** Dividing twice is dividing by the product. */
  lemma QuotientTwice(v: nat, a: nat, b: nat)
    requires a > 0 && b > 0
    ensures a * b > 0 && Quotient(Quotient(v, a), b) == Quotient(v, a * b)
  {
    var q, r := Quotient(v, a), Remainder(v, a);
    var p, s := Quotient(q, b), Remainder(q, b);
    Division(v, a);
    Division(q, b);
    Scale(s, b, a);
    assert v == (p * b + s) * a + r == p * (a * b) + (s * a + r);
    Carry(a * b, p, s * a + r);
  }

  /** A multiple of the divisor adds its factor to the quotient and nothing to the remainder. */
  lemma QuotientShift(x: nat, a: nat, b: nat)
    requires b > 0
    ensures Quotient(x * b + a, b) == x + Quotient(a, b) && Remainder(x * b + a, b) == Remainder(a, b)
  {
    var q, r := Quotient(a, b), Remainder(a, b);
    Division(a, b);
    assert x * b + a == (x + q) * b + r;
    Carry(b, x + q, r);
  }

  lemma QuotientBelow(v: nat, b: nat, p: nat)
    requires b > 0 && v < b * p
    ensures Quotient(v, b) < p
  {
    Division(v, b);
    if p <= Quotient(v, b) { Scale(p, Quotient(v, b) + 1, b); }
  }

  lemma {:induction false} ValueOfDigits(b: nat, v: nat, n: nat)
    requires b > 0 && v < Pow(b, n)
    ensures Value(b, Digits(b, v, n)) == v
    decreases n
  {
    if n > 0 {
      var q, ds := Quotient(v, b), Digits(b, v, n);
      QuotientBelow(v, b, Pow(b, n - 1));
      ValueOfDigits(b, q, n - 1);
      assert ds[..n - 1] == Digits(b, q, n - 1) && ds[n - 1] == Remainder(v, b);
      Division(v, b);
    }
  }

  /** The high digits are those of the quotient. */
  lemma {:induction false} DigitsFront(b: nat, v: nat, m: nat, k: nat)
    requires b > 0
    ensures Pow(b, k) > 0 && Digits(b, v, m + k)[..m] == Digits(b, Quotient(v, Pow(b, k)), m)
    decreases k
  {
    PowPositive(b, k);
    if k == 0 {
      assert Digits(b, v, m)[..m] == Digits(b, v, m);
    } else {
      var q, rest := Quotient(v, b), Pow(b, k - 1);
      DigitsFront(b, q, m, k - 1);
      assert Digits(b, v, m + k)[..m] == Digits(b, q, m + (k - 1))[..m];
      QuotientTwice(v, b, rest);
    }
  }

  /** The low digits do not depend on the high ones. */
  lemma {:induction false} DigitsBack(b: nat, v: nat, m: nat, k: nat)
    requires b > 0
    ensures Digits(b, v, m + k)[m..] == Digits(b, v, k)
    decreases k
  {
    if k > 0 {
      var q := Quotient(v, b);
      DigitsBack(b, q, m, k - 1);
      assert Digits(b, v, m + k) == Digits(b, q, m + (k - 1)) + [Remainder(v, b)];
    }
  }

  /** The value of the low digits is the remainder. */
  lemma {:induction false} ValueOfLow(b: nat, v: nat, k: nat)
    requires b > 0
    ensures Pow(b, k) > 0 && Value(b, Digits(b, v, k)) == Remainder(v, Pow(b, k))
    decreases k
  {
    PowPositive(b, k);
    if k > 0 {
      var q, r, p := Quotient(v, b), Remainder(v, b), Pow(b, k - 1);
      PowPositive(b, k - 1);
      ValueOfLow(b, q, k - 1);
      var ds := Digits(b, v, k);
      assert ds[..k - 1] == Digits(b, q, k - 1) && ds[k - 1] == r;
      RemainderTwice(v, b, p);
      assert Value(b, ds) == Remainder(q, p) * b + r;
    }
  }

  lemma RemainderTwice(v: nat, b: nat, p: nat)
    requires b > 0 && p > 0
    ensures b * p > 0 && Remainder(v, b * p) == Remainder(Quotient(v, b), p) * b + Remainder(v, b)
  {
    var q, r := Quotient(v, b), Remainder(v, b);
    var h, s := Quotient(q, p), Remainder(q, p);
    Division(v, b);
    Division(q, p);
    BelowProduct(s, p, r, b);
    assert v == (h * p + s) * b + r == h * (b * p) + (s * b + r);
    Carry(b * p, h, s * b + r);
  }

  /** A base-32 digit is five binary ones. */
  lemma {:induction false} DigitsOfFive(v: nat, n: nat, i: nat)
    requires i < n
    ensures Digits(32, v, n)[i] == Value(2, Digits(2, v, 5 * n)[5 * i..5 * i + 5])
    decreases n
  {
    var m, bits, q := 5 * (n - 1), Digits(2, v, 5 * n), Quotient(v, 32);
    assert Pow(2, 5) == 32;
    if i == n - 1 {
      DigitsBack(2, v, m, 5);
      assert bits[m..m + 5] == bits[m..];
      ValueOfLow(2, v, 5);
    } else {
      DigitsFront(2, v, m, 5);
      DigitsOfFive(q, n - 1, i);
      assert bits[..m][5 * i..5 * i + 5] == bits[5 * i..5 * i + 5];
    }
  }

  lemma ValueUnique(b: nat, xs: seq<nat>, ys: seq<nat>)
    requires b > 0 && |xs| == |ys| && Are(b, xs) && Are(b, ys) && Value(b, xs) == Value(b, ys)
    ensures xs == ys
  {
    DigitsOfValue(b, xs);
    DigitsOfValue(b, ys);
  }

  /** Lexicographic order: the first difference decides. */
  ghost predicate Before(xs: seq<nat>, ys: seq<nat>) {
    exists k: nat :: k < |xs| && k < |ys| && xs[..k] == ys[..k] && xs[k] < ys[k]
  }

  lemma {:induction false} OrderAgrees(b: nat, xs: seq<nat>, ys: seq<nat>)
    requires b > 0 && |xs| == |ys| && Are(b, xs) && Are(b, ys)
    ensures Before(xs, ys) <==> Value(b, xs) < Value(b, ys)
    decreases |xs|
  {
    if xs != [] {
      var n := |xs| - 1;
      var xf, yf := xs[..n], ys[..n];
      OrderAgrees(b, xf, yf);
      BeforeLast(xs, ys);
      var x, y := Value(b, xf), Value(b, yf);
      if x < y {
        Scale(x, y, b);
      } else if y < x {
        Scale(y, x, b);
      } else {
        ValueUnique(b, xf, yf);
      }
    }
  }

  lemma BeforeLast(xs: seq<nat>, ys: seq<nat>)
    requires xs != [] && |xs| == |ys|
    ensures var n := |xs| - 1; Before(xs, ys) <==> Before(xs[..n], ys[..n]) || (xs[..n] == ys[..n] && xs[n] < ys[n])
  {
    var n := |xs| - 1;
    if Before(xs, ys) {
      var k: nat :| k < |xs| && k < |ys| && xs[..k] == ys[..k] && xs[k] < ys[k];
      if k < n {
        assert xs[..n][..k] == xs[..k] && ys[..n][..k] == ys[..k];
        assert xs[..n][k] < ys[..n][k];
      }
    }
    if Before(xs[..n], ys[..n]) {
      var k: nat :| k < n && xs[..n][..k] == ys[..n][..k] && xs[..n][k] < ys[..n][k];
      assert xs[..n][..k] == xs[..k] && ys[..n][..k] == ys[..k];
    }
  }

  /** Two digits at a time is one digit of the squared base. */
  function Paired(b: nat, ds: seq<nat>): (ps: seq<nat>)
    requires |ds| % 2 == 0
    ensures |ps| == |ds| / 2
  {
    seq(|ds| / 2, i requires 0 <= i < |ds| / 2 => ds[2 * i] * b + ds[2 * i + 1])
  }

  lemma {:induction false} PairedValue(b: nat, ds: seq<nat>)
    requires |ds| % 2 == 0
    ensures Value(b * b, Paired(b, ds)) == Value(b, ds)
    decreases |ds|
  {
    if ds != [] {
      var n := |ds| - 2;
      var front := ds[..n];
      PairedValue(b, front);
      var ps := Paired(b, ds);
      assert ps[..|ps| - 1] == Paired(b, front);
      assert ds[..n + 1][..n] == front;
      Distribute(Value(b, front), b, ds[n], b);
    }
  }
}
