/** Block-wise Base58 and the checksummed address format built on it (`Base58.cpp`). */
module Base58 {
  import opened LedgerTypes
  import opened Varints
  import opened Radix
  import WideArith

  const ALPHABET: string := "123456789" + "ABCDEFGH" + "JKLMN" + "PQRSTUVWXYZ" + "abcdefghijk" + "mnopqrstuvwxyz"

  const FULL_BLOCK: nat := 8
  const FULL_ENCODED_BLOCK: nat := 11

  type Digit58 = d: nat | d < 58

  function EncodedSize(n: nat): (r: nat)
    requires n <= FULL_BLOCK
  {
    [0, 2, 3, 5, 6, 7, 9, 10, 11][n]
  }

  /** The inverse table; -1 marks sizes that no block encodes to. */
  function DecodedSize(m: nat): (r: int)
    requires m <= FULL_ENCODED_BLOCK
    ensures -1 <= r <= 8
    ensures r >= 0 ==> EncodedSize(r) == m
    ensures forall n: nat :: n <= FULL_BLOCK && EncodedSize(n) == m ==> r == n
  {
    [0, -1, 1, 2, -1, 3, 4, 5, -1, 6, 7, 8][m]
  }

  // ---- Letters ----

  function Letter(d: Digit58): (c: char) {
    ALPHABET[d]
  }

  /** The position of a letter in the alphabet, or -1. */
  function DigitOf(c: char): (r: int)
    ensures -1 <= r < 58
  {
    if '1' <= c <= '9' then c as int - '1' as int
    else if 'A' <= c <= 'H' then c as int - 'A' as int + 9
    else if 'J' <= c <= 'N' then c as int - 'J' as int + 17
    else if 'P' <= c <= 'Z' then c as int - 'P' as int + 22
    else if 'a' <= c <= 'k' then c as int - 'a' as int + 33
    else if 'm' <= c <= 'z' then c as int - 'm' as int + 44
    else -1
  }

  ghost predicate Run(s: string, first: int) {
    forall i :: 0 <= i < |s| ==> s[i] as int == first + i
  }

  lemma {:induction false} AlphabetRuns()
    ensures Run("123456789", 49) && Run("ABCDEFGH", 65) && Run("JKLMN", 74)
    ensures Run("PQRSTUVWXYZ", 80) && Run("abcdefghijk", 97) && Run("mnopqrstuvwxyz", 109)
  {
  }

  lemma {:induction false} LetterDigit(d: Digit58)
    ensures DigitOf(Letter(d)) == d
  {
    AlphabetRuns();
    SixRuns("123456789", "ABCDEFGH", "JKLMN", "PQRSTUVWXYZ", "abcdefghijk", "mnopqrstuvwxyz", d);
  }

  lemma {:induction false} SixRuns(a: string, b: string, c: string, d: string, e: string, f: string, k: nat)
    requires |a| == 9 && |b| == 8 && |c| == 5 && |d| == 11 && |e| == 11 && |f| == 14 && k < 58
    requires Run(a, 49) && Run(b, 65) && Run(c, 74) && Run(d, 80) && Run(e, 97) && Run(f, 109)
    ensures DigitOf((a + b + c + d + e + f)[k]) == k
  {
    var s := a + b + c + d + e + f;
    if k < 9 {
      assert s[k] == a[k];
    } else if k < 17 {
      assert s[k] == b[k - 9];
    } else if k < 22 {
      assert s[k] == c[k - 17];
    } else if k < 33 {
      assert s[k] == d[k - 22];
    } else if k < 44 {
      assert s[k] == e[k - 33];
    } else {
      assert s[k] == f[k - 44];
    }
  }

  lemma {:induction false} DigitInjective(x: char, y: char)
    requires DigitOf(x) == DigitOf(y) >= 0
    ensures x == y
  {
  }

  lemma {:induction false} DigitLetter(c: char)
    requires DigitOf(c) >= 0
    ensures Letter(DigitOf(c)) == c
  {
    LetterDigit(DigitOf(c));
    hide Letter;
    DigitInjective(Letter(DigitOf(c)), c);
  }

  // ---- Blocks ----

  /** The alphabet is the digits and letters in ascending order without `0`, `O`, `I` and `l`. */
  lemma {:induction false} AlphabetExactly(c: char, i: Digit58, j: Digit58)
    ensures (exists d: Digit58 :: Letter(d) == c) <==>
              ('0' <= c <= '9' || 'A' <= c <= 'Z' || 'a' <= c <= 'z') && c !in "0OIl"
    ensures i < j ==> Letter(i) < Letter(j)
  {
    hide Letter;
    LetterDigit(i);
    LetterDigit(j);
    if DigitOf(c) >= 0 {
      DigitLetter(c);
    } else if d: Digit58 :| Letter(d) == c {
      LetterDigit(d);
    }
  }

  function Letters(ds: seq<nat>): (r: string)
    requires Below(ds, 58)
    ensures |r| == |ds| && forall i :: 0 <= i < |ds| ==> r[i] == Letter(ds[i])
  {
    seq(|ds|, i requires 0 <= i < |ds| => Letter(ds[i]))
  }

  predicate AllLetters(s: string) {
    forall i :: 0 <= i < |s| ==> DigitOf(s[i]) >= 0
  }

  function DigitsOf(s: string): (r: seq<nat>)
    requires AllLetters(s)
    ensures |r| == |s| && Below(r, 58) && forall i :: 0 <= i < |s| ==> r[i] == DigitOf(s[i])
  {
    seq(|s|, i requires 0 <= i < |s| => DigitOf(s[i]))
  }

  /** The fixed-width base-58 numeral of the big-endian number that the block is. */
  function EncBlock(block: seq<byte>): (r: string)
    requires 1 <= |block| <= FULL_BLOCK
    ensures |r| == EncodedSize(|block|)
  {
    Letters(Digits(58, Value(256, block), EncodedSize(|block|)))
  }

  /** The block whose numeral `e` is, if there is one. */
  function DecBlock(e: string): (r: Option<seq<byte>>)
    requires 1 <= |e| <= FULL_ENCODED_BLOCK
    ensures r.Some? ==> |r.value| <= FULL_BLOCK && EncodedSize(|r.value|) == |e|
  {
    var n := DecodedSize(|e|);
    if n <= 0 || !AllLetters(e) then None
    else
      var v := Value(58, DigitsOf(e));
      if v >= Pow(256, n) then None else Some(Digits(256, v, n))
  }

  lemma {:induction false} Powers()
    ensures Pow(256, 1) == 0x100 && Pow(256, 2) == 0x1_0000 && Pow(256, 3) == 0x100_0000
    ensures Pow(256, 4) == 0x1_0000_0000 && Pow(256, 5) == 0x100_0000_0000 && Pow(256, 6) == 0x1_0000_0000_0000
    ensures Pow(256, 7) == 0x100_0000_0000_0000 && Pow(256, 8) == TWO64
  {
  }

  /** Every block size has the smallest encoded size with enough room for it. */
  lemma {:induction false} RoomFor(n: nat)
    requires 1 <= n <= FULL_BLOCK
    ensures Pow(256, n) <= Pow(58, EncodedSize(n))
    ensures EncodedSize(n) >= 1 && Pow(58, EncodedSize(n) - 1) < Pow(256, n)
  {
    Powers();
    match n {
      case 1 => assert Pow(58, 1) == 58 && Pow(58, 2) == 3364;
      case 2 => assert Pow(58, 2) == 3364 && Pow(58, 3) == 195112;
      case 3 => assert Pow(58, 4) == 11316496 && Pow(58, 5) == 656356768;
      case 4 => assert Pow(58, 5) == 656356768 && Pow(58, 6) == 38068692544;
      case 5 => assert Pow(58, 6) == 38068692544 && Pow(58, 7) == 2207984167552;
      case 6 => assert Pow(58, 8) == 128063081718016 && Pow(58, 9) == 7427658739644928;
      case 7 => assert Pow(58, 9) == 7427658739644928 && Pow(58, 10) == 430804206899405824;
      case _ => assert Pow(58, 10) == 430804206899405824 && Pow(58, 11) == 24986644000165537792;
    }
  }

  lemma {:induction false} LettersRoundTrip(ds: seq<nat>)
    requires Below(ds, 58)
    ensures AllLetters(Letters(ds)) && DigitsOf(Letters(ds)) == ds
  {
    forall i | 0 <= i < |ds| ensures DigitOf(Letters(ds)[i]) == ds[i] {
      LetterDigit(ds[i]);
    }
    hide Letter, DigitOf;
  }

  lemma {:induction false} BlockRoundTrip(block: seq<byte>)
    requires 1 <= |block| <= FULL_BLOCK
    ensures DecBlock(EncBlock(block)) == Some(block)
  {
    var n, v := |block|, Value(256, block);
    ValueBound(256, block);
    RoomFor(n);
    ValueOfDigits(58, v, EncodedSize(n));
    LettersRoundTrip(Digits(58, v, EncodedSize(n)));
    DigitsOfValue(256, block);
    hide Digits, Value, Pow, Letters, DigitsOf, EncodedSize, DecodedSize;
  }

  /** A block and its letters are the same number, in base 256 and in base 58, highest place first. */
  lemma {:induction false} SameNumber(block: seq<byte>)
    requires 1 <= |block| <= FULL_BLOCK
    ensures AllLetters(EncBlock(block))
    ensures var ds := DigitsOf(EncBlock(block)); PlaceSum(58, ds, |ds|) == PlaceSum(256, block, |block|)
  {
    var n, v := |block|, Value(256, block);
    ValueBound(256, block);
    RoomFor(n);
    var ds := Digits(58, v, EncodedSize(n));
    ValueOfDigits(58, v, EncodedSize(n));
    LettersRoundTrip(ds);
    ValueIsPlaceSum(58, ds);
    ValueIsPlaceSum(256, block);
    hide Digits, Value, Pow, Letters, DigitsOf, EncodedSize, PlaceSum;
  }

  /** A string decodes only if it is what the decoded block encodes to. */
  lemma {:induction false} BlockCanonical(e: string)
    requires 1 <= |e| <= FULL_ENCODED_BLOCK
    ensures DecBlock(e).Some? ==> EncBlock(DecBlock(e).value) == e
  {
    if DecBlock(e).Some? {
      var n, ds := DecodedSize(|e|), DigitsOf(e);
      var v := Value(58, ds);
      ValueOfDigits(256, v, n);
      DigitsOfValue(58, ds);
      forall i | 0 <= i < |e| ensures Letters(ds)[i] == e[i] {
        DigitLetter(e[i]);
      }
      assert Letters(ds) == e;
      hide Digits, Value, Pow, Letters, DigitsOf, EncodedSize, DecodedSize;
    }
  }

  // ---- Whole strings ----

  function Enc(data: seq<byte>): (r: string) {
    if data == [] then ""
    else if |data| < FULL_BLOCK then EncBlock(data)
    else EncBlock(data[..FULL_BLOCK]) + Enc(data[FULL_BLOCK..])
  }

  function Dec(e: string): (r: Option<seq<byte>>) {
    if e == "" then Some([])
    else if |e| < FULL_ENCODED_BLOCK then DecBlock(e)
    else
      var first, rest := DecBlock(e[..FULL_ENCODED_BLOCK]), Dec(e[FULL_ENCODED_BLOCK..]);
      if first.None? || rest.None? then None else Some(first.value + rest.value)
  }

  /** Decoding an encoding gives back the data. */
  lemma {:induction false} Base58RoundTrip(data: seq<byte>)
    ensures Dec(Enc(data)) == Some(data)
  {
    hide EncBlock, DecBlock, Dec;
    if data == [] {
      assert Dec("") == Some([]) by { DecShort(""); }
    } else if |data| < FULL_BLOCK {
      BlockRoundTrip(data);
      DecShort(Enc(data));
    } else {
      var a, b := data[..FULL_BLOCK], data[FULL_BLOCK..];
      BlockRoundTrip(a);
      Base58RoundTrip(b);
      DecConcat(EncBlock(a), Enc(b));
      assert a + b == data;
    }
  }

  lemma {:induction false} DecShort(e: string)
    requires |e| < FULL_ENCODED_BLOCK
    ensures Dec(e) == if e == "" then Some([]) else DecBlock(e)
  {
  }

  lemma {:induction false} DecConcat(x: string, y: string)
    requires |x| == FULL_ENCODED_BLOCK && DecBlock(x).Some? && Dec(y).Some?
    ensures Dec(x + y) == Some(DecBlock(x).value + Dec(y).value)
  {
    hide DecBlock;
    assert (x + y)[..FULL_ENCODED_BLOCK] == x && (x + y)[FULL_ENCODED_BLOCK..] == y;
  }

  /** Nothing but encodings decodes, so encoding is a bijection onto the strings that decode accepts. */
  lemma {:induction false} Base58Canonical(e: string)
    ensures Dec(e).Some? ==> Enc(Dec(e).value) == e
  {
    if Dec(e).Some? && e != "" && |e| < FULL_ENCODED_BLOCK {
      BlockCanonical(e);
      ShortBlock(e);
    } else if Dec(e).Some? && e != "" {
      var a, b := e[..FULL_ENCODED_BLOCK], e[FULL_ENCODED_BLOCK..];
      BlockCanonical(a);
      Base58Canonical(b);
      var x, y := DecBlock(a).value, Dec(b).value;
      ShortBlock(a);
      hide EncBlock, DecBlock;
      assert (x + y)[..FULL_BLOCK] == x && (x + y)[FULL_BLOCK..] == y;
      assert a + b == e;
    }
  }

  lemma {:induction false} ShortBlock(e: string)
    requires 1 <= |e| <= FULL_ENCODED_BLOCK && DecBlock(e).Some?
    ensures 1 <= |DecBlock(e).value| <= FULL_BLOCK
    ensures |DecBlock(e).value| == FULL_BLOCK <==> |e| == FULL_ENCODED_BLOCK
  {
  }

  // ---- The routines ----

  /** `uint_8be_to_64`. */
  method BigEndian(block: seq<byte>) returns (res: nat)
    requires 1 <= |block| <= FULL_BLOCK
    ensures res == Value(256, block) && res < Pow(256, |block|) && res < TWO64
  {
    res := 0;
    for k := 0 to |block|
      invariant res == Value(256, block[..k])
    {
      assert block[..k + 1][..k] == block[..k];
      res := res * 256 + block[k];
    }
    assert block[..|block|] == block;
    ValueBound(256, block);
    PowersGrow(|block|);
  }

  lemma {:induction false} PowersGrow(n: nat)
    requires n <= FULL_BLOCK
    ensures Pow(256, n) <= TWO64
  {
    Powers();
    assert Pow(256, 0) == 1;
    match n {
      case 0 | 1 | 2 | 3 | 4 | 5 | 6 | 7 | 8 =>
    }
  }

  lemma {:induction false} NextDigit(num: nat, w: nat, done: string)
    requires w > 0
    ensures num / 58 < num || num == 0
    ensures Letters(Digits(58, num, w)) + done == Letters(Digits(58, num / 58, w - 1)) + ([Letter(num % 58)] + done)
    ensures num < Pow(58, w) ==> num / 58 < Pow(58, w - 1)
  {
    assert Digits(58, num, w) == Digits(58, num / 58, w - 1) + [num % 58];
    if num < Pow(58, w) {
      DivBelowPow(58, num, Pow(58, w - 1));
    }
  }

  lemma {:induction false} LeadingOnes(w: nat, done: string)
    ensures Letters(Digits(58, 0, w)) + done == seq(w, i => '1') + done
  {
    ZeroDigits(58, w);
    assert Letter(0) == '1';
    hide Letter;
  }

  /** `encode_block`: fills a stretch of a buffer that holds the letter for zero. */
  method EncodeBlock(block: seq<byte>, res: array<char>, at: nat)
    requires 1 <= |block| <= FULL_BLOCK && at + EncodedSize(|block|) <= res.Length
    requires forall k :: at <= k < at + EncodedSize(|block|) ==> res[k] == '1'
    modifies res
    ensures res[..] == old(res[..at]) + EncBlock(block) + old(res[at + EncodedSize(|block|)..])
  {
    hide Letter, Letters, Digits, Value, Pow, EncodedSize;
    var num: nat := BigEndian(block);
    RoomFor(|block|);
    ghost var w, all := EncodedSize(|block|), res[..];
    var i := EncodedSize(|block|);
    ghost var done: string := "";
    while 0 < num
      invariant 0 <= i <= w && num < Pow(58, i)
      invariant Letters(Digits(58, num, i)) + done == EncBlock(block) && |done| == w - i
      invariant res[..] == all[..at + i] + done + all[at + w..]
      decreases num
    {
      PositiveWidth(num, i);
      NextDigit(num, i, done);
      i := i - 1;
      var letter := Letter(num % 58);
      Placed(all[..at + i + 1], done, all[at + w..], letter);
      res[at + i] := letter;
      done := [letter] + done;
      num := num / 58;
    }
    LeadingOnes(i, done);
    Filled(all, at, i, w, done);
  }

  /** The letters for zero that were not overwritten are part of the numeral. */
  lemma {:induction false} Filled(all: string, at: nat, i: nat, w: nat, done: string)
    requires i <= w && at + w <= |all| && forall k :: at <= k < at + w ==> all[k] == '1'
    ensures all[..at + i] + done + all[at + w..] == all[..at] + (seq(i, k => '1') + done) + all[at + w..]
  {
    assert all[..at + i] == all[..at] + seq(i, k => '1');
  }

  lemma {:induction false} Placed(head: string, done: string, tail: string, letter: char)
    requires head != []
    ensures (head + done + tail)[|head| - 1 := letter] == head[..|head| - 1] + ([letter] + done) + tail
  {
  }

  lemma {:induction false} PositiveWidth(num: nat, w: nat)
    requires 0 < num < Pow(58, w)
    ensures w > 0
  {
  }

  /** `decode_block`; the overflow tests on 64-bit words refuse exactly the values that do not fit the block. */
  method DecodeBlock(e: string) returns (r: Option<seq<byte>>)
    requires 1 <= |e| <= FULL_ENCODED_BLOCK
    ensures r == DecBlock(e)
  {
    hide Value, Pow, DigitOf, DigitsOf, DecodedSize;
    var size := DecodedSize(|e|);
    if size <= 0 {
      return None;
    }
    var num, order, i := 0, 1, |e|;
    SuffixStart(e);
    while i > 0
      invariant 0 <= i <= |e| && AllLetters(e[i..])
      invariant num == Value(58, DigitsOf(e[i..])) && num < TWO64
      invariant order < TWO64 && (|e| - i <= 10 ==> order == Pow(58, |e| - i))
    {
      i := i - 1;
      var digit := DigitOf(e[i]);
      if digit < 0 {
        return None;
      }
      SuffixStep(e, i, size);
      var lo, hi := WideArith.Mul128(order, digit);
      var tmp := (num + lo) % TWO64;
      OverflowTest(num, lo, hi);
      if tmp < num || 0 != hi {
        return None;
      }
      num := tmp;
      order := order * 58 % TWO64;
    }
    assert e[0..] == e;
    Powers();
    if size < FULL_BLOCK && Pow(256, size) <= num {
      return None;
    }
    r := Some(Digits(256, num, size));
  }

  /** A wrapped sum or a high word is exactly a total of 2^64 or more. */
  lemma {:induction false} OverflowTest(num: uint64, lo: uint64, hi: uint64)
    ensures (num + lo) % TWO64 < num || hi != 0 <==> hi * TWO64 + lo + num >= TWO64
    ensures hi * TWO64 + lo + num < TWO64 ==> (num + lo) % TWO64 == hi * TWO64 + lo + num
  {
    if num + lo >= TWO64 {
      assert (num + lo) % TWO64 == num + lo - TWO64;
    }
  }

  lemma {:induction false} SuffixStart(e: string)
    ensures AllLetters(e[|e|..]) && Value(58, DigitsOf(e[|e|..])) == 0 && Pow(58, 0) == 1
  {
    assert e[|e|..] == "";
  }

  lemma {:induction false} SuffixStep(e: string, i: nat, size: nat)
    requires i < |e| <= FULL_ENCODED_BLOCK && AllLetters(e[i + 1..]) && DigitOf(e[i]) >= 0
    requires DecodedSize(|e|) == size && size > 0
    ensures AllLetters(e[i..])
    ensures Value(58, DigitsOf(e[i..])) == DigitOf(e[i]) * Pow(58, |e| - i - 1) + Value(58, DigitsOf(e[i + 1..]))
    ensures |e| - i - 1 < 10 ==> Pow(58, |e| - i - 1) * 58 == Pow(58, |e| - i) < TWO64
    ensures Value(58, DigitsOf(e[i..])) >= TWO64 ==> DecBlock(e).None?
  {
    hide DigitOf, DecodedSize, Value;
    assert e[i..] == [e[i]] + e[i + 1..];
    var ds := DigitsOf(e[i..]);
    ValueFront(58, ds);
    assert ds[1..] == DigitsOf(e[i + 1..]);
    if |e| - i - 1 < 10 {
      PowTen(|e| - i);
    }
    TooLarge(e, i, size);
  }

  lemma {:induction false} TooLarge(e: string, i: nat, size: nat)
    requires i < |e| <= FULL_ENCODED_BLOCK && AllLetters(e[i..]) && DecodedSize(|e|) == size > 0
    ensures Value(58, DigitsOf(e[i..])) >= TWO64 ==> DecBlock(e).None?
  {
    hide DigitOf, DecodedSize, Value, Pow;
    if AllLetters(e) {
      assert DigitsOf(e)[i..] == DigitsOf(e[i..]);
      SuffixBelow(58, DigitsOf(e), i);
      PowersGrow(size);
    }
  }

  lemma {:induction false} PowTen(n: nat)
    requires n <= 10
    ensures Pow(58, n) < TWO64
  {
    assert Pow(58, 0) == 1 && Pow(58, 1) == 58 && Pow(58, 2) == 3364 && Pow(58, 3) == 195112;
    assert Pow(58, 4) == 11316496 && Pow(58, 5) == 656356768 && Pow(58, 6) == 38068692544;
    assert Pow(58, 7) == 2207984167552 && Pow(58, 8) == 128063081718016;
    assert Pow(58, 9) == 7427658739644928 && Pow(58, 10) == 430804206899405824;
  }

  /** `encode`: one buffer, filled block by block. */
  method Encode(data: seq<byte>) returns (r: string)
    ensures r == Enc(data)
  {
    hide EncBlock;
    var full, last := |data| / FULL_BLOCK, |data| % FULL_BLOCK;
    var res := new char[full * FULL_ENCODED_BLOCK + EncodedSize(last)](_ => '1');
    for i := 0 to full
      invariant Enc(data) == res[..i * FULL_ENCODED_BLOCK] + Enc(data[i * FULL_BLOCK..])
      invariant forall k :: i * FULL_ENCODED_BLOCK <= k < res.Length ==> res[k] == '1'
    {
      EncStep(data[i * FULL_BLOCK..], res[..i * FULL_ENCODED_BLOCK]);
      assert data[i * FULL_BLOCK..][FULL_BLOCK..] == data[(i + 1) * FULL_BLOCK..];
      EncodeBlock(data[i * FULL_BLOCK..][..FULL_BLOCK], res, i * FULL_ENCODED_BLOCK);
    }
    var tail := data[full * FULL_BLOCK..];
    if 0 < last {
      EncodeBlock(tail, res, full * FULL_ENCODED_BLOCK);
    }
    r := res[..];
  }

  lemma {:induction false} EncStep(data: seq<byte>, done: string)
    requires |data| >= FULL_BLOCK
    ensures done + Enc(data) == done + EncBlock(data[..FULL_BLOCK]) + Enc(data[FULL_BLOCK..])
  {
    hide EncBlock;
  }

  ghost function Prepend(done: seq<byte>, r: Option<seq<byte>>): Option<seq<byte>> {
    if r.None? then None else Some(done + r.value)
  }

  lemma {:induction false} DecStep(e: string, done: seq<byte>)
    requires |e| >= FULL_ENCODED_BLOCK
    ensures var first := DecBlock(e[..FULL_ENCODED_BLOCK]);
            Prepend(done, Dec(e)) == if first.None? then None
                                     else Prepend(done + first.value, Dec(e[FULL_ENCODED_BLOCK..]))
  {
    hide DecBlock;
    var first, rest := DecBlock(e[..FULL_ENCODED_BLOCK]), Dec(e[FULL_ENCODED_BLOCK..]);
    if first.Some? && rest.Some? {
      assert done + (first.value + rest.value) == done + first.value + rest.value;
    }
  }

  lemma {:induction false} PrependNothing(r: Option<seq<byte>>)
    ensures Prepend([], r) == r
  {
    if r.Some? {
      assert [] + r.value == r.value;
    }
  }

  lemma {:induction false} DecLength(e: string)
    ensures DecodedSize(|e| % FULL_ENCODED_BLOCK) < 0 ==> Dec(e).None?
  {
    hide Dec, DecodedSize, DecBlock;
    if |e| >= FULL_ENCODED_BLOCK {
      DecLength(e[FULL_ENCODED_BLOCK..]);
      DecStep(e, []);
      PrependNothing(Dec(e));
    } else {
      DecShort(e);
      BadSize(e);
    }
  }

  lemma {:induction false} BadSize(e: string)
    requires |e| < FULL_ENCODED_BLOCK
    ensures DecodedSize(|e|) < 0 ==> e != "" && DecBlock(e).None?
  {
  }

  method Put(block: seq<byte>, data: array<byte>, at: nat)
    requires at + |block| <= data.Length
    modifies data
    ensures data[..] == old(data[..at]) + block + old(data[at + |block|..])
  {
    forall k | 0 <= k < |block| {
      data[at + k] := block[k];
    }
  }

  /** `decode`: false for a bad length, a foreign letter or a block that is too large. */
  method Decode(e: string) returns (r: Option<seq<byte>>)
    ensures r == Dec(e)
  {
    hide DecBlock, Dec;
    var full, last := |e| / FULL_ENCODED_BLOCK, |e| % FULL_ENCODED_BLOCK;
    var lastSize := DecodedSize(last);
    DecLength(e);
    if lastSize < 0 {
      return None;
    }
    var data := new byte[full * FULL_BLOCK + lastSize](_ => 0);
    assert e[0..] == e && data[..0] == [];
    PrependNothing(Dec(e));
    for i := 0 to full
      invariant Dec(e) == Prepend(data[..i * FULL_BLOCK], Dec(e[i * FULL_ENCODED_BLOCK..]))
    {
      ghost var done := data[..i * FULL_BLOCK];
      DecStep(e[i * FULL_ENCODED_BLOCK..], done);
      var block := DecodeBlock(e[i * FULL_ENCODED_BLOCK..][..FULL_ENCODED_BLOCK]);
      if block.None? {
        return None;
      }
      ShortBlock(e[i * FULL_ENCODED_BLOCK..][..FULL_ENCODED_BLOCK]);
      Put(block.value, data, i * FULL_BLOCK);
      assert data[..(i + 1) * FULL_BLOCK] == done + block.value;
      assert e[i * FULL_ENCODED_BLOCK..][FULL_ENCODED_BLOCK..] == e[(i + 1) * FULL_ENCODED_BLOCK..];
    }
    var tail := e[full * FULL_ENCODED_BLOCK..];
    DecShort(tail);
    ghost var done := data[..full * FULL_BLOCK];
    if 0 < last {
      var block := DecodeBlock(tail);
      if block.None? {
        return None;
      }
      Put(block.value, data, full * FULL_BLOCK);
      assert data[..] == done + block.value;
    } else {
      assert data[..] == done + [];
    }
    r := Some(data[..]);
  }

  // ---- Addresses ----

  const CHECKSUM_SIZE: nat := 4

  ghost predicate HashOk(hash: seq<byte> -> seq<byte>) {
    forall s :: |hash(s)| == 32
  }

  /** `encode_addr`: tag, data, and the first four bytes of the hash of both. */
  function EncodeAddr(hash: seq<byte> -> seq<byte>, tag: uint64, data: seq<byte>): (r: string)
    requires HashOk(hash)
  {
    var buf := Varint(tag) + data;
    Enc(buf + hash(buf)[..CHECKSUM_SIZE])
  }

  /** What an address carries once Base58 and the checksum are in order. */
  function Payload(hash: seq<byte> -> seq<byte>, addr: string): (r: Option<seq<byte>>)
    requires HashOk(hash)
  {
    var d := Dec(addr);
    if d.None? || |d.value| <= CHECKSUM_SIZE then None
    else
      var buf := d.value[..|d.value| - CHECKSUM_SIZE];
      if hash(buf)[..CHECKSUM_SIZE] != d.value[|d.value| - CHECKSUM_SIZE..] then None else Some(buf)
  }

  /** `decode_addr`. */
  function DecodeAddr(hash: seq<byte> -> seq<byte>, addr: string): (r: Option<(nat, seq<byte>)>)
    requires HashOk(hash)
  {
    var buf := Payload(hash, addr);
    if buf.None? then None
    else
      match Read(64, buf.value, true)
      case Done(n, tag) => Some((tag, buf.value[n..]))
      case Ended(n, tag) => if n == 0 then None else Some((tag, buf.value[n..]))
      case _ => None
  }

  lemma {:induction false} PayloadOf(hash: seq<byte> -> seq<byte>, buf: seq<byte>)
    requires HashOk(hash) && buf != []
    ensures Payload(hash, Enc(buf + hash(buf)[..CHECKSUM_SIZE])) == Some(buf)
  {
    var sum := hash(buf)[..CHECKSUM_SIZE];
    Base58RoundTrip(buf + sum);
    assert (buf + sum)[..|buf|] == buf && (buf + sum)[|buf|..] == sum;
    hide Enc, Dec;
  }

  lemma {:induction false} PayloadEncodes(hash: seq<byte> -> seq<byte>, addr: string)
    requires HashOk(hash) && Payload(hash, addr).Some?
    ensures var buf := Payload(hash, addr).value; buf != [] && Enc(buf + hash(buf)[..CHECKSUM_SIZE]) == addr
  {
    Base58Canonical(addr);
    var d := Dec(addr).value;
    hide Enc, Dec;
    assert d == d[..|d| - CHECKSUM_SIZE] + d[|d| - CHECKSUM_SIZE..];
  }

  lemma {:induction false} Pow64()
    ensures Pow(2, 64) == TWO64
  {
    PowOne();
    hide Pow;
    PowSmall(64);
    PowSmall(57);
    PowSmall(50);
    PowSmall(43);
    PowSmall(36);
    PowSmall(29);
    PowSmall(22);
    PowSmall(15);
    PowSmall(8);
  }

  lemma {:induction false} PowOne()
    ensures Pow(2, 1) == 2
  {
  }

  /** An address for `buf`: its Base58 with the first four bytes of its hash behind it. */
  ghost predicate AddressOf(hash: seq<byte> -> seq<byte>, addr: string, buf: seq<byte>)
    requires HashOk(hash)
  {
    && buf != [] && addr == Enc(buf + [hash(buf)[0], hash(buf)[1], hash(buf)[2], hash(buf)[3]])
    && (Read(64, buf, true).Done? || Read(64, buf, true).Ended?)
  }

  /** An address is accepted exactly if it is that of some bytes that start with a 64-bit number. */
  lemma {:induction false} AddrExactly(hash: seq<byte> -> seq<byte>, addr: string)
    requires HashOk(hash)
    ensures DecodeAddr(hash, addr).Some? <==> exists buf :: AddressOf(hash, addr, buf)
  {
    hide Enc, Payload, Read;
    if DecodeAddr(hash, addr).Some? {
      var buf := Payload(hash, addr).value;
      PayloadEncodes(hash, addr);
      FourBytes(hash(buf));
      assert AddressOf(hash, addr, buf);
    }
    if buf :| AddressOf(hash, addr, buf) {
      FourBytes(hash(buf));
      PayloadOf(hash, buf);
    }
  }

  lemma {:induction false} FourBytes(s: seq<byte>)
    requires |s| == 32
    ensures s[..CHECKSUM_SIZE] == [s[0], s[1], s[2], s[3]]
  {
  }

  /** Bytes with any other four bytes behind them are refused. */
  lemma {:induction false} WrongChecksumRefused(hash: seq<byte> -> seq<byte>, buf: seq<byte>, sum: seq<byte>)
    requires HashOk(hash) && |sum| == 4
    requires exists i :: 0 <= i < 4 && sum[i] != hash(buf)[i]
    ensures DecodeAddr(hash, Enc(buf + sum)) == None
  {
    Base58RoundTrip(buf + sum);
    hide Enc, Dec, Read;
    assert (buf + sum)[..|buf|] == buf && (buf + sum)[|buf|..] == sum;
    FourBytes(hash(buf));
    var i :| 0 <= i < 4 && sum[i] != hash(buf)[i];
    assert hash(buf)[..CHECKSUM_SIZE][i] != sum[i];
  }

  /** Every 64-bit tag and every data come back from the address made of them. */
  lemma {:induction false} AddrRoundTrip(hash: seq<byte> -> seq<byte>, tag: uint64, data: seq<byte>)
    requires HashOk(hash)
    ensures DecodeAddr(hash, EncodeAddr(hash, tag, data)) == Some((tag, data))
  {
    var buf := Varint(tag) + data;
    PayloadOf(hash, buf);
    Pow64();
    VarintRoundTrip(64, tag, data, true);
    hide Enc, Payload, Read, Varint, Pow;
    assert buf[|Varint(tag)|..] == data;
  }

  ghost predicate AllContinued(s: seq<byte>) {
    forall k :: 0 <= k < |s| ==> s[k] >= 128
  }

  /**
   * An accepted address is the one that its tag and data encode to exactly when some payload byte ends a number.
   * The other accepted addresses carry a tag cut off by the end of the payload.
   */
  lemma {:induction false} AddrCanonical(hash: seq<byte> -> seq<byte>, addr: string)
    requires HashOk(hash)
    ensures var r := DecodeAddr(hash, addr);
            r.Some? ==> r.value.0 < TWO64 && Payload(hash, addr).Some?
                        && (EncodeAddr(hash, r.value.0, r.value.1) == addr <==>
                            !AllContinued(Payload(hash, addr).value))
  {
    var r := DecodeAddr(hash, addr);
    if r.Some? {
      var buf := Payload(hash, addr).value;
      var (tag, data) := r.value;
      PayloadEncodes(hash, addr);
      EndedIsAllContinued(64, buf, true);
      VarintCanonical(64, buf, true);
      Pow64();
      ReadCases(buf, tag, data);
      PayloadOf(hash, Varint(tag) + data);
      hide Enc, Dec, Payload, Read, Varint, Pow;
    }
  }

  lemma {:induction false} ReadCases(buf: seq<byte>, tag: nat, data: seq<byte>)
    requires match Read(64, buf, true)
             case Done(n, v) => tag == v && data == buf[n..]
             case Ended(n, v) => tag == v && data == []
             case _ => false
    ensures Varint(tag) + data == buf <==> !AllContinued(buf)
    ensures tag < Pow(2, 64)
  {
    EndedIsAllContinued(64, buf, true);
    VarintCanonical(64, buf, true);
    var r := Read(64, buf, true);
    hide Read, Pow;
    if r.Done? {
      assert buf == buf[..r.read] + buf[r.read..];
    } else {
      var v := Varint(tag);
      hide Varint;
      assert v + data == v;
      assert v[|v| - 1] < 128;
    }
  }

  /** Such an address exists for every hash: payload 0x80, read as tag 0 without data. */
  lemma {:induction false} CutOffTagAccepted(hash: seq<byte> -> seq<byte>)
    requires HashOk(hash)
    ensures var addr := Enc([0x80] + hash([0x80])[..CHECKSUM_SIZE]);
            DecodeAddr(hash, addr) == Some((0, [])) && EncodeAddr(hash, 0, []) != addr
  {
    PayloadOf(hash, [0x80]);
    assert Read(57, [], false) == Ended(0, 0);
    assert [0x80][1..] == [];
    assert Read(64, [0x80], true) == Ended(1, 0);
    var addr := Enc([0x80] + hash([0x80])[..CHECKSUM_SIZE]);
    AddrCanonical(hash, addr);
    hide Enc, Payload, EncodeAddr;
  }
}
