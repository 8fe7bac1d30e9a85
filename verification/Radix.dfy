/** Fixed-width numbers in an arbitrary base, most significant digit first. */
module Radix {

  function Pow(b: nat, n: nat): (r: nat)
    ensures b > 0 ==> r > 0
  {
    if n == 0 then 1 else b * Pow(b, n - 1)
  }

  function Value(b: nat, ds: seq<nat>): (r: nat) {
    if ds == [] then 0 else b * Value(b, ds[..|ds| - 1]) + ds[|ds| - 1]
  }

  function Digits(b: nat, num: nat, w: nat): (r: seq<nat>)
    requires b > 0
    ensures |r| == w && forall i :: 0 <= i < w ==> r[i] < b
    decreases w
  {
    if w == 0 then [] else Digits(b, num / b, w - 1) + [num % b]
  }

  ghost predicate Below(ds: seq<nat>, b: nat) {
    forall i :: 0 <= i < |ds| ==> ds[i] < b
  }

  lemma {:induction false} ValueBound(b: nat, ds: seq<nat>)
    requires b > 0 && Below(ds, b)
    ensures Value(b, ds) < Pow(b, |ds|)
  {
    if ds != [] {
      ValueBound(b, ds[..|ds| - 1]);
      AppendBelow(b, Value(b, ds[..|ds| - 1]), Pow(b, |ds| - 1), ds[|ds| - 1]);
    }
  }

  lemma {:induction false} ValueAppend(b: nat, ds: seq<nat>, d: nat)
    ensures Value(b, ds + [d]) == b * Value(b, ds) + d
  {
    assert (ds + [d])[..|ds|] == ds;
  }

  /** The first `n` digits, each weighted by its place. */
  ghost function PlaceSum(b: nat, ds: seq<nat>, n: nat): (r: nat)
    requires n <= |ds|
  {
    if n == 0 then 0 else PlaceSum(b, ds, n - 1) + ds[n - 1] * Pow(b, |ds| - n)
  }

  lemma {:induction false} ValueIsPlaceSum(b: nat, ds: seq<nat>)
    ensures Value(b, ds) == PlaceSum(b, ds, |ds|)
  {
    if ds != [] {
      var n := |ds| - 1;
      ValueIsPlaceSum(b, ds[..n]);
      PlaceSumFront(b, ds, n);
      assert Pow(b, 0) == 1;
    }
  }

  lemma {:induction false} PlaceSumFront(b: nat, ds: seq<nat>, n: nat)
    requires n < |ds|
    ensures PlaceSum(b, ds, n) == b * PlaceSum(b, ds[..|ds| - 1], n)
    decreases n
  {
    if n > 0 {
      PlaceSumFront(b, ds, n - 1);
      var front := ds[..|ds| - 1];
      PlaceScaled(b, PlaceSum(b, front, n - 1), ds[n - 1], Pow(b, |front| - n));
    }
  }

  lemma {:induction false} PlaceScaled(b: nat, s: nat, d: nat, p: nat)
    ensures b * (s + d * p) == b * s + d * (b * p)
  {
  }

  /** The digits of a number that fits have that number as their value. */
  lemma {:induction false} ValueOfDigits(b: nat, num: nat, w: nat)
    requires b > 0 && num < Pow(b, w)
    ensures Value(b, Digits(b, num, w)) == num
    decreases w
  {
    if w > 0 {
      var q, d := num / b, num % b;
      DivBelowPow(b, num, Pow(b, w - 1));
      ValueOfDigits(b, q, w - 1);
      DivMod(num, b);
      assert Digits(b, num, w) == Digits(b, q, w - 1) + [d];
      ValueAppend(b, Digits(b, q, w - 1), d);
      hide *;
    }
  }

  lemma {:induction false} DivMod(n: nat, b: nat)
    requires b > 0
    ensures n == b * (n / b) + n % b && 0 <= n % b < b
  {
  }

  lemma {:induction false} Multiples(b: int, k: int)
    requires b >= 0
    ensures k >= 1 ==> b * k >= b
    ensures k <= 0 ==> b * k <= 0
    ensures k <= -1 ==> b * k <= -b
  {
    if k >= 1 {
      assert b * k == b + b * (k - 1);
    }
  }

  lemma {:induction false} Minus(b: nat, x: int, y: int)
    ensures b * (x - y) == b * x - b * y
  {
  }

  lemma {:induction false} AppendBelow(b: nat, v: nat, p: nat, d: nat)
    requires v < p && d < b
    ensures b * v + d < b * p
  {
    Minus(b, p, v);
    Multiples(b, p - v);
  }

  lemma {:induction false} PowSum(b: nat, m: nat, n: nat)
    ensures Pow(b, m + n) == Pow(b, m) * Pow(b, n)
  {
    if m > 0 {
      PowSum(b, m - 1, n);
      assert m + n - 1 == m - 1 + n;
      MulAssociates(b, Pow(b, m - 1), Pow(b, n));
    }
  }

  lemma {:induction false} MulAssociates(a: nat, b: nat, c: nat)
    ensures a * (b * c) == a * b * c
  {
  }

  lemma {:induction false} DivBelowPow(b: nat, num: nat, p: nat)
    requires b > 0 && num < b * p
    ensures num / b < p
  {
    var q := num / b;
    DivMod(num, b);
    Minus(b, p, q);
    Multiples(b, p - q);
  }

  /** The value of digits has exactly those digits. */
  lemma {:induction false} DigitsOfValue(b: nat, ds: seq<nat>)
    requires b > 0 && Below(ds, b)
    ensures Digits(b, Value(b, ds), |ds|) == ds
  {
    if ds != [] {
      var last, front := ds[|ds| - 1], ds[..|ds| - 1];
      DigitsOfValue(b, front);
      DivModUnique(b, Value(b, front), last);
    }
  }

  lemma {:induction false} DivModUnique(b: nat, q: nat, d: nat)
    requires d < b
    ensures (b * q + d) / b == q && (b * q + d) % b == d
  {
    var n := b * q + d;
    DivMod(n, b);
    var q2 := n / b;
    Minus(b, q2, q);
    Multiples(b, q2 - q);
  }

  /** Splitting off the leading digit. */
  lemma {:induction false} ValueFront(b: nat, ds: seq<nat>)
    requires ds != []
    ensures Value(b, ds) == ds[0] * Pow(b, |ds| - 1) + Value(b, ds[1..])
  {
    if |ds| > 1 {
      var front, last := ds[..|ds| - 1], ds[|ds| - 1];
      ValueFront(b, front);
      assert ds[1..][..|ds| - 2] == front[1..];
      Distribute(b, ds[0], Pow(b, |ds| - 2), Value(b, front[1..]));
    }
  }

  lemma {:induction false} Distribute(b: nat, d: nat, p: nat, v: nat)
    ensures b * (d * p + v) == d * (b * p) + b * v
  {
  }

  lemma {:induction false} SuffixBelow(b: nat, ds: seq<nat>, i: nat)
    requires i <= |ds|
    ensures Value(b, ds[i..]) <= Value(b, ds)
    decreases i
  {
    if i == 0 {
      assert ds[0..] == ds;
    } else {
      SuffixBelow(b, ds, i - 1);
      ValueFront(b, ds[i - 1..]);
      assert ds[i - 1..][1..] == ds[i..];
      var high: nat := ds[i - 1] * Pow(b, |ds| - i);
    }
  }

  lemma {:induction false} ZeroDigits(b: nat, w: nat)
    requires b > 0
    ensures Digits(b, 0, w) == seq(w, i => 0)
    decreases w
  {
    if w > 0 {
      ZeroDigits(b, w - 1);
    }
  }
}
