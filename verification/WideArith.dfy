/** 64-bit and 128-bit arithmetic in machine words (`int-util.h`, `Difficulty.cpp`, `getPenalizedAmount`). */
module WideArith {
  import opened LedgerTypes
  import opened Reward

  type uint32 = x: int | 0 <= x < TWO32

  // ---- Multiplication ----

  lemma {:induction false} Expand(a: int, b: int, c: int, d: int)
    ensures (a * TWO32 + b) * (c * TWO32 + d) == a * c * TWO64 + (a * d + b * c) * TWO32 + b * d
  {
    calc {
      (a * TWO32 + b) * (c * TWO32 + d);
      (a * TWO32) * (c * TWO32) + (a * TWO32) * d + b * (c * TWO32) + b * d;
      a * c * TWO64 + (a * d) * TWO32 + (b * c) * TWO32 + b * d;
    }
  }

  /** Adding the partial products word by word, carries included, loses nothing. */
  lemma {:induction false} AddPartials(ac: nat, ad: nat, bc: nat, bd: nat)
    requires ac < TWO64 && ad < TWO64 && bc < TWO64 && bd < TWO64
    ensures var adbc := Wrap64(ad + bc);
            var adbcCarry := if adbc < ad then 1 else 0;
            var lo := Wrap64(bd + Wrap64(adbc * TWO32));
            var loCarry := if lo < bd then 1 else 0;
            (ac + adbc / TWO32 + adbcCarry * TWO32 + loCarry) * TWO64 + lo == ac * TWO64 + (ad + bc) * TWO32 + bd
  {
    var adbc := Wrap64(ad + bc);
    var adbcCarry := if adbc < ad then 1 else 0;
    assert ad + bc == adbc + adbcCarry * TWO64;
    var shifted := Wrap64(adbc * TWO32);
    ShiftSplit(adbc);
    var lo := Wrap64(bd + shifted);
    var loCarry := if lo < bd then 1 else 0;
    assert bd + shifted == lo + loCarry * TWO64;
  }

  lemma {:induction false} ShiftSplit(x: uint64)
    ensures Wrap64(x * TWO32) == (x % TWO32) * TWO32
    ensures x * TWO32 == (x / TWO32) * TWO64 + Wrap64(x * TWO32)
  {
    var q, r := x / TWO32, x % TWO32;
    assert x == q * TWO32 + r;
    assert x * TWO32 == q * TWO64 + r * TWO32;
    WrapShift(r * TWO32, q);
  }

  /** `mul128`: the two words are the exact product, and the closing assertion on the high word holds. */
  method Mul128(multiplier: uint64, multiplicand: uint64) returns (lo: uint64, hi: uint64)
    ensures hi * TWO64 + lo == multiplier * multiplicand
  {
    var a, b := multiplier / TWO32, multiplier % TWO32;
    var c, d := multiplicand / TWO32, multiplicand % TWO32;
    var ac, ad, bc, bd := PartialProducts(a, b, c, d);
    assert a * TWO32 + b == multiplier && c * TWO32 + d == multiplicand;
    ghost var product: nat := multiplier * multiplicand;
    AssembleProduct(ac, ad, bc, bd, product, multiplier, multiplicand);
    lo, hi := Assemble(ac, ad, bc, bd, product);
  }

  /** The carry handling of `mul128`. */
  method Assemble(ac: uint64, ad: uint64, bc: uint64, bd: uint64, ghost product: nat) returns (lo: uint64, hi: uint64)
    requires ac * TWO64 + (ad + bc) * TWO32 + bd == product < TWO64 * TWO64
    ensures hi * TWO64 + lo == product && ac <= hi
  {
    hide Wrap64;
    AddPartials(ac, ad, bc, bd);
    var adbc := Wrap64(ad + bc);
    var adbcCarry := if adbc < ad then 1 else 0;
    lo := Wrap64(bd + Wrap64(adbc * TWO32));
    var loCarry := if lo < bd then 1 else 0;
    var high := ac + adbc / TWO32 + adbcCarry * TWO32 + loCarry;
    HighFits(high, lo, product);
    hi := Wrap64(high);
  }

  lemma {:induction false} HighFits(high: nat, lo: uint64, product: nat)
    requires high * TWO64 + lo == product < TWO64 * TWO64
    ensures Wrap64(high) == high
  {
  }

  lemma {:induction false} AssembleProduct(ac: uint64, ad: uint64, bc: uint64, bd: uint64, product: nat, x: uint64,
                                           y: uint64)
    requires ac * TWO64 + (ad + bc) * TWO32 + bd == product == x * y
    ensures product < TWO64 * TWO64
  {
    MulBound(x, y, TWO64 - 1, TWO64 - 1);
  }

  /** The four 32-bit products fit in 64 bits. */
  method PartialProducts(a: uint32, b: uint32, c: uint32, d: uint32)
    returns (ac: uint64, ad: uint64, bc: uint64, bd: uint64)
    ensures ac * TWO64 + (ad + bc) * TWO32 + bd == (a * TWO32 + b) * (c * TWO32 + d)
  {
    MulBound(a, c, TWO32 - 1, TWO32 - 1);
    MulBound(a, d, TWO32 - 1, TWO32 - 1);
    MulBound(b, c, TWO32 - 1, TWO32 - 1);
    MulBound(b, d, TWO32 - 1, TWO32 - 1);
    Expand(a, b, c, d);
    ac, ad, bc, bd := a * c, a * d, b * c, b * d;
  }

  // ---- Long division by a 32-bit divisor ----

  /** `div_with_reminder` on one 32-bit digit. */
  method DivWithRemainder(dividend: uint32, divisor: uint32, remainder: uint32) returns (q: uint32, r: uint32)
    requires 0 < divisor && remainder < divisor
    ensures r < divisor && q * divisor + r == remainder * TWO32 + dividend
  {
    var d: uint64 := remainder * TWO32 + dividend;
    r := d % divisor;
    QuotientFits(d, remainder, divisor);
    q := d / divisor;
  }

  lemma {:induction false} QuotientFits(d: nat, remainder: nat, divisor: nat)
    requires remainder < divisor && d < (remainder + 1) * TWO32
    ensures d / divisor < TWO32 && d == (d / divisor) * divisor + d % divisor
  {
    var q := d / divisor;
    assert d == q * divisor + d % divisor;
    MulMonotone(remainder + 1, divisor, TWO32);
    if q >= TWO32 {
      MulMonotone(TWO32, q, divisor);
    }
  }

  lemma {:induction false} FourDigits(q3: int, q2: int, q1: int, q0: int, r3: int, r2: int, r1: int, r0: int,
                                      d3: int, d2: int, d1: int, d0: int, m: int)
    requires q3 * m + r3 == d3
    requires q2 * m + r2 == r3 * TWO32 + d2
    requires q1 * m + r1 == r2 * TWO32 + d1
    requires q0 * m + r0 == r1 * TWO32 + d0
    ensures ((q3 * TWO32 + q2) * TWO64 + (q1 * TWO32 + q0)) * m + r0
         == (d3 * TWO32 + d2) * TWO64 + (d1 * TWO32 + d0)
  {
    var s3, s2, s1, s0 := q3 * m, q2 * m, q1 * m, q0 * m;
    assert ((q3 * TWO32 + q2) * TWO64 + (q1 * TWO32 + q0)) * m
        == (s3 * TWO32 + s2) * TWO64 + (s1 * TWO32 + s0);
  }

  /** `div128_32`: exact quotient and remainder. */
  method Div128By32(hi: uint64, lo: uint64, divisor: uint32) returns (qhi: uint64, qlo: uint64, remainder: uint32)
    requires 0 < divisor
    ensures remainder < divisor
    ensures (qhi * TWO64 + qlo) * divisor + remainder == hi * TWO64 + lo
  {
    var d3, d2, d1, d0 := hi / TWO32, hi % TWO32, lo / TWO32, lo % TWO32;
    var q3, r3 := DivWithRemainder(d3, divisor, 0);
    var q2, r2 := DivWithRemainder(d2, divisor, r3);
    var q1, r1 := DivWithRemainder(d1, divisor, r2);
    var q0, r0 := DivWithRemainder(d0, divisor, r1);
    qhi, qlo, remainder := q3 * TWO32 + q2, q1 * TWO32 + q0, r0;
    FourDigits(q3, q2, q1, q0, r3, r2, r1, r0, d3, d2, d1, d0, divisor);
  }

  // ---- The block-size penalty ----

  lemma {:induction false} DivUnique(x: nat, d: nat, q: nat, r: nat)
    requires d > 0 && q * d + r == x && r < d
    ensures x / d == q
  {
    var p := x / d;
    assert p * d <= x < p * d + d;
    MulMonotone(p, p, d);
    MulMonotone(q, q, d);
    if p < q {
      MulMonotone(p + 1, q, d);
    } else if q < p {
      MulMonotone(q + 1, p, d);
    }
  }

  /** Dividing twice by `m` is dividing once by `m * m`. */
  lemma {:induction false} TwoDivisions(x: nat, m: nat, q1: nat, r1: nat, q2: nat, r2: nat)
    requires 0 < m && r1 < m && r2 < m
    requires q1 * m + r1 == x && q2 * m + r2 == q1
    ensures x / (m * m) == q2
  {
    Nested(q2, r2, m);
    MulMonotone(r2, m - 1, m);
    MulMonotone(m - 1, m - 1, m);
    DivUnique(x, m * m, q2, r2 * m + r1);
  }

  lemma {:induction false} Nested(q: nat, r: nat, m: nat)
    ensures (q * m + r) * m == q * (m * m) + r * m
  {
  }

  /** `getPenalizedAmount`: the machine computation never wraps and is the exact scaled amount. */
  method GetPenalizedAmount(amount: uint64, medianSize: nat, currentBlockSize: nat) returns (r: uint64)
    requires currentBlockSize <= 2 * medianSize && medianSize < TWO32 && currentBlockSize < TWO32
    ensures r == PenalizedAmount(amount, medianSize, currentBlockSize)
  {
    if amount == 0 {
      ZeroPenalty(medianSize, currentBlockSize);
      return 0;
    }
    if currentBlockSize <= medianSize {
      return amount;
    }
    PenaltyFits(medianSize, currentBlockSize);
    var multiplicand: uint64 := Wrap64(2 * medianSize - currentBlockSize);
    multiplicand := Wrap64(multiplicand * currentBlockSize);
    var productLo, productHi := Mul128(amount, multiplicand);
    var hi1, lo1, r1 := Div128By32(productHi, productLo, medianSize);
    var hi2, lo2, r2 := Div128By32(hi1, lo1, medianSize);
    PenaltyExact(amount, medianSize, currentBlockSize, multiplicand, hi1 * TWO64 + lo1, r1, hi2, lo2, r2);
    assert hi2 == 0;
    assert lo2 < amount;
    r := lo2;
  }

  lemma {:induction false} PenaltyFits(median: nat, size: nat)
    requires median < size <= 2 * median && median < TWO32
    ensures 0 <= 2 * median - size < TWO64
    ensures 0 <= (2 * median - size) * size == size * (2 * median - size) < TWO64
  {
    PenaltyFactor(median, size);
    MulBound(median, median, TWO32 - 1, TWO32 - 1);
  }

  lemma {:induction false} PenaltyExact(amount: uint64, median: nat, size: nat, factor: nat, q1: nat, r1: nat,
                                        hi2: nat, lo2: nat, r2: nat)
    requires 0 < amount && median < size <= 2 * median && factor == size * (2 * median - size)
    requires r1 < median && q1 * median + r1 == amount * factor
    requires r2 < median && (hi2 * TWO64 + lo2) * median + r2 == q1
    ensures hi2 == 0 && lo2 < amount && lo2 == PenalizedAmount(amount, median, size)
  {
    TwoDivisions(amount * factor, median, q1, r1, hi2 * TWO64 + lo2, r2);
    PenaltyBelowAmount(amount, median, size);
    HighIsZero(hi2, lo2, amount);
  }

  lemma {:induction false} HighIsZero(hi: nat, lo: nat, bound: uint64)
    requires hi * TWO64 + lo < bound
    ensures hi == 0
  {
  }

  lemma {:induction false} ZeroPenalty(median: nat, size: nat)
    requires size <= 2 * median
    ensures PenalizedAmount(0, median, size) == 0
  {
    if median < size {
      PenaltyFactor(median, size);
      assert 0 * (size * (2 * median - size)) == 0;
    }
  }

  // ---- Proof of work ----

  /** The hash read as a little-endian 256-bit number from its four words. */
  function HashValue(h: seq<uint64>): nat
    requires |h| == 4
  {
    h[0] + h[1] * TWO64 + h[2] * (TWO64 * TWO64) + h[3] * (TWO64 * TWO64 * TWO64)
  }

  const TWO256: int := TWO64 * TWO64 * TWO64 * TWO64

  /** `cadd`: carry out of a 64-bit addition. */
  function CarryAdd(a: uint64, b: uint64): (r: bool)
    ensures r <==> a + b >= TWO64
  {
    Wrap64(a + b) < a
  }

  /** `cadc`: carry out of a 64-bit addition with carry in. */
  function CarryAdc(a: uint64, b: uint64, c: bool): (r: bool)
    ensures r <==> a + b + (if c then 1 else 0) >= TWO64
  {
    Wrap64(a + b) < a || (c && Wrap64(a + b) == TWO64 - 1)
  }

  /** `check_hash`: accepts exactly the hashes whose product with the difficulty stays below 2^256. */
  method CheckHash(h: seq<uint64>, difficulty: uint64) returns (r: bool)
    requires |h| == 4
    ensures r <==> HashValue(h) * difficulty < TWO256
  {
    var top, topHigh := Mul128(h[3], difficulty);
    if topHigh != 0 {
      TopDecides(h, difficulty, top, topHigh);
      return false;
    }
    var low0, cur0 := Mul128(h[0], difficulty);
    var low1, high1 := Mul128(h[1], difficulty);
    var carry := CarryAdd(cur0, low1);
    var low2, high2 := Mul128(h[2], difficulty);
    CarryDecides(h, difficulty, low0, cur0, low1, high1, low2, high2, top, topHigh);
    carry := CarryAdc(high1, low2, carry);
    carry := CarryAdc(high2, top, carry);
    r := !carry;
  }

  lemma {:induction false} TwoWords(x: uint64, y: uint64) returns (lo: uint64, hi: uint64)
    ensures hi * TWO64 + lo == x * y
  {
    MulBound(x, y, TWO64, TWO64);
    var p := x * y;
    lo, hi := p % TWO64, p / TWO64;
  }

  lemma {:induction false} TopDecides(h: seq<uint64>, d: uint64, top: uint64, high: uint64)
    requires |h| == 4 && high * TWO64 + top == h[3] * d && high != 0
    ensures HashValue(h) * d >= TWO256
  {
    hide HashValue;
    var low0, high0 := TwoWords(h[0], d);
    var low1, high1 := TwoWords(h[1], d);
    var low2, high2 := TwoWords(h[2], d);
    CarryDecides(h, d, low0, high0, low1, high1, low2, high2, top, high);
  }

  lemma {:induction false} CarryDecides(h: seq<uint64>, d: uint64, l0: uint64, c0: uint64, l1: uint64, h1: uint64,
                                        l2: uint64, h2: uint64, t: uint64, th: uint64)
    requires |h| == 4
    requires c0 * TWO64 + l0 == h[0] * d && h1 * TWO64 + l1 == h[1] * d
    requires h2 * TWO64 + l2 == h[2] * d && th * TWO64 + t == h[3] * d
    ensures th != 0 ==> HashValue(h) * d >= TWO256
    ensures th == 0 ==> (CarryAdc(h2, t, CarryAdc(h1, l2, CarryAdd(c0, l1))) <==> HashValue(h) * d >= TWO256)
  {
    hide HashValue;
    SumOfWords(h, d, l0, c0, l1, h1, l2, h2, t, th);
    CarryChain(l0, c0 + l1, h1 + l2, h2 + t);
  }

  lemma {:induction false} SumOfWords(h: seq<uint64>, d: uint64, l0: uint64, c0: uint64, l1: uint64, h1: uint64,
                                      l2: uint64, h2: uint64, t: uint64, th: uint64)
    requires |h| == 4
    requires c0 * TWO64 + l0 == h[0] * d && h1 * TWO64 + l1 == h[1] * d
    requires h2 * TWO64 + l2 == h[2] * d && th * TWO64 + t == h[3] * d
    ensures HashValue(h) * d == l0 + (c0 + l1) * TWO64 + (h1 + l2) * (TWO64 * TWO64)
                                + (h2 + t) * (TWO64 * TWO64 * TWO64) + th * TWO256
    ensures th != 0 ==> HashValue(h) * d >= TWO256
  {
    var p0, p1, p2, p3 := h[0] * d, h[1] * d, h[2] * d, h[3] * d;
    assert HashValue(h) * d == p0 + p1 * TWO64 + p2 * (TWO64 * TWO64) + p3 * (TWO64 * TWO64 * TWO64);
  }

  /** The carry chain decides whether the four-word sum reaches 2^256. */
  lemma {:induction false} CarryChain(w0: nat, w1: nat, w2: nat, w3: nat)
    requires w0 < TWO64 && w1 <= 2 * TWO64 - 2 && w2 <= 2 * TWO64 - 2
    ensures var c1 := w1 >= TWO64;
            var c2 := w2 + (if c1 then 1 else 0) >= TWO64;
            var c3 := w3 + (if c2 then 1 else 0) >= TWO64;
            c3 <==> w0 + w1 * TWO64 + w2 * (TWO64 * TWO64) + w3 * (TWO64 * TWO64 * TWO64) >= TWO256
  {
    var c1 := if w1 >= TWO64 then 1 else 0;
    var c2 := if w2 + c1 >= TWO64 then 1 else 0;
    var r1, r2 := w1 - c1 * TWO64, w2 + c1 - c2 * TWO64;
    assert 0 <= r1 < TWO64 && 0 <= r2 < TWO64;
    var low := w0 + r1 * TWO64 + r2 * (TWO64 * TWO64);
    assert 0 <= low < TWO64 * TWO64 * TWO64;
    assert w0 + w1 * TWO64 + w2 * (TWO64 * TWO64) + w3 * (TWO64 * TWO64 * TWO64)
        == low + (w3 + c2) * (TWO64 * TWO64 * TWO64);
  }

  /** Acceptance is antitone in the difficulty. */
  lemma {:induction false} HarderIsStricter(h: seq<uint64>, d1: uint64, d2: uint64)
    requires |h| == 4 && d1 <= d2 && HashValue(h) * d2 < TWO256
    ensures HashValue(h) * d1 < TWO256
  {
    MulBound(HashValue(h), d1, HashValue(h), d2);
  }
}
