/** Variable-length integers, seven bits a byte, lowest first (`Varint.h`). */
module Varints {
  import opened Radix

  type byte = x: nat | x < 256

  /** The canonical encoding. */
  function Varint(i: nat): (r: seq<byte>)
    ensures r != [] && r[|r| - 1] < 128
    ensures forall k :: 0 <= k < |r| - 1 ==> r[k] >= 128
  {
    if i < 128 then [i] else [i % 128 + 128] + Varint(i / 128)
  }

  lemma {:induction false} VarintStep(done: seq<byte>, i: nat)
    ensures i >= 128 ==> done + Varint(i) == done + [i % 128 + 128] + Varint(i / 128)
    ensures i < 128 ==> done + Varint(i) == done + [i]
  {
  }

  /** The low seven bits of the first `n` bytes, each weighted by its place. */
  ghost function Groups(bytes: seq<byte>, n: nat): (r: nat)
    requires n <= |bytes|
  {
    if n == 0 then 0 else Groups(bytes, n - 1) + bytes[n - 1] % 128 * Pow(128, n - 1)
  }

  lemma {:induction false} GroupsFirst(bytes: seq<byte>, n: nat)
    requires 0 < n <= |bytes|
    ensures Groups(bytes, n) == bytes[0] % 128 + 128 * Groups(bytes[1..], n - 1)
  {
    if n == 1 {
      assert Groups(bytes, 1) == Groups(bytes, 0) + bytes[0] % 128 * Pow(128, 0);
    } else {
      GroupsFirst(bytes, n - 1);
      assert bytes[1..][n - 2] == bytes[n - 1];
      PlaceScaled(128, Groups(bytes[1..], n - 2), bytes[n - 1] % 128, Pow(128, n - 2));
      assert Pow(128, n - 1) == 128 * Pow(128, n - 2);
      hide Pow;
    }
  }

  /** An encoding is the seven-bit groups of its value, lowest first, as few as there can be. */
  lemma {:induction false} VarintIsGroups(i: nat)
    ensures Groups(Varint(i), |Varint(i)|) == i
    ensures |Varint(i)| > 1 ==> Varint(i)[|Varint(i)| - 1] > 0
    decreases i
  {
    var s := Varint(i);
    GroupsFirst(s, |s|);
    if i >= 128 {
      VarintIsGroups(i / 128);
      assert s[1..] == Varint(i / 128);
      hide Groups;
    } else {
      assert s[1..] == [];
    }
  }

  method WriteVarint(v: nat) returns (r: seq<byte>)
    ensures r == Varint(v)
  {
    hide Varint;
    var i := v;
    r := [];
    while i >= 0x80
      invariant r + Varint(i) == Varint(v)
    {
      VarintStep(r, i);
      var low: byte := i % 0x80 + 0x80;
      r := r + [low];
      i := i / 0x80;
    }
    VarintStep(r, i);
    r := r + [i];
  }

  /** `Done`: a last byte was read. `Ended`: the input ended after `read` bytes that all announce another one. */
  datatype Reading =
    | Done(read: nat, value: nat)
    | Ended(read: nat, value: nat)
    | Overflow
    | NonCanonical

  /** What is read from `bytes` with `bits` bits to go. */
  function Read(bits: nat, bytes: seq<byte>, first: bool): (r: Reading)
    ensures r.Done? ==> 1 <= r.read <= |bytes|
    ensures r.Ended? ==> r.read == |bytes|
    decreases |bytes|
  {
    if bytes == [] then Ended(0, 0)
    else if bits <= 7 && bytes[0] >= Pow(2, bits) then Overflow
    else if bytes[0] == 0 && !first then NonCanonical
    else if bytes[0] < 128 then Done(1, bytes[0])
    else
      assert bits > 7 by { PowSmall(bits); }
      match Read(bits - 7, bytes[1..], false)
      case Done(n, v) => Done(n + 1, bytes[0] - 128 + 128 * v)
      case Ended(n, v) => Ended(n + 1, bytes[0] - 128 + 128 * v)
      case error => error
  }

  lemma {:induction false} PowSmall(n: nat)
    ensures n <= 7 ==> Pow(2, n) <= 128
    ensures n >= 7 ==> Pow(2, n) == 128 * Pow(2, n - 7)
    decreases n
  {
    if n > 7 {
      PowSmall(n - 1);
    } else if n > 0 {
      PowSmall(n - 1);
      if n == 7 {
        assert Pow(2, 7) == 2 * Pow(2, 6) == 4 * Pow(2, 5) == 8 * Pow(2, 4) == 16 * Pow(2, 3) == 32 * Pow(2, 2)
               == 64 * Pow(2, 1);
      }
    }
  }

  /** Reading gives back every value that fits the bits, and takes exactly its encoding. */
  lemma {:induction false} VarintRoundTrip(bits: nat, i: nat, rest: seq<byte>, first: bool)
    requires i < Pow(2, bits) && (i > 0 || first)
    ensures Read(bits, Varint(i) + rest, first) == Done(|Varint(i)|, i)
    decreases i
  {
    var s := Varint(i) + rest;
    PowSmall(bits);
    if i >= 128 {
      VarintRoundTrip(bits - 7, i / 128, rest, false);
      assert s[1..] == Varint(i / 128) + rest;
    }
  }

  /** Conversely whatever is read to a last byte is the canonical encoding of a value that fits. */
  lemma {:induction false} VarintCanonical(bits: nat, bytes: seq<byte>, first: bool)
    ensures var r := Read(bits, bytes, first);
            r.Done? ==> r.value < Pow(2, bits) && bytes[..r.read] == Varint(r.value) && (r.value > 0 || first)
    decreases |bytes|
  {
    var r := Read(bits, bytes, first);
    PowSmall(bits);
    if r.Done? && bytes[0] >= 128 {
      VarintCanonical(bits - 7, bytes[1..], false);
      var v := Read(bits - 7, bytes[1..], false).value;
      hide Read, Pow;
      assert bytes[..r.read] == [bytes[0]] + bytes[1..][..r.read - 1];
      assert r.value / 128 == v && r.value % 128 == bytes[0] - 128;
    } else if r.Done? {
      assert bytes[..1] == [bytes[0]];
    }
  }

  /** The input ends inside a number only if every byte of it announces another one. */
  lemma {:induction false} EndedIsAllContinued(bits: nat, bytes: seq<byte>, first: bool)
    ensures Read(bits, bytes, first).Ended? ==> forall k :: 0 <= k < |bytes| ==> bytes[k] >= 128
    ensures Read(bits, bytes, first).Ended? ==> Read(bits, bytes, first).value < Pow(2, bits)
    ensures Read(bits, bytes, first).Done? ==> exists k :: 0 <= k < |bytes| && bytes[k] < 128
    decreases |bytes|
  {
    var r := Read(bits, bytes, first);
    PowSmall(bits);
    if bytes != [] && bytes[0] >= 128 && (r.Ended? || r.Done?) {
      EndedIsAllContinued(bits - 7, bytes[1..], false);
      assert forall k :: 0 < k < |bytes| ==> bytes[k] == bytes[1..][k - 1];
    }
  }

  ghost function Lift(r: Reading, read: nat, shift: nat, acc: nat): (t: Reading) {
    match r
    case Done(n, v) => Done(read + n, acc + v * Pow(2, shift))
    case Ended(n, v) => Ended(read + n, acc + v * Pow(2, shift))
    case error => error
  }

  lemma {:induction false} LiftStep(b: byte, r: Reading, read: nat, shift: nat, acc: nat)
    requires b >= 128
    ensures Lift(Lift(r, 1, 7, b - 128), read, shift, acc)
            == Lift(r, read + 1, shift + 7, acc + (b - 128) * Pow(2, shift))
  {
    PowSmall(7);
    PowSmall(shift + 7);
    assert Pow(2, 7) == 128 && Pow(2, shift + 7) == 128 * Pow(2, shift);
    if r.Done? || r.Ended? {
      LiftArithmetic(b - 128, r.value, Pow(2, shift));
    }
  }

  lemma {:induction false} LiftArithmetic(c: nat, v: nat, p: nat)
    ensures (c + v * 128) * p == c * p + v * (128 * p)
  {
  }

  lemma {:induction false} ReadStep(bits: nat, bytes: seq<byte>, n: nat, shift: nat, acc: nat)
    requires n < |bytes| && shift <= bits && (n == 0 <==> shift == 0)
    ensures var here := Lift(Read(bits - shift, bytes[n..], shift == 0), n, shift, acc);
            var b := bytes[n];
            if shift + 7 >= bits && b >= Pow(2, bits - shift) then here == Overflow
            else if b == 0 && shift != 0 then here == NonCanonical
            else if b < 128 then here == Done(n + 1, acc + b * Pow(2, shift))
            else shift + 7 <= bits
                 && here == Lift(Read(bits - shift - 7, bytes[n + 1..], false), n + 1, shift + 7,
                                 acc + (b - 128) * Pow(2, shift))
  {
    var b, rest := bytes[n], bytes[n..];
    PowSmall(bits - shift);
    if !(shift + 7 >= bits && b >= Pow(2, bits - shift)) && b >= 128 {
      PowSmall(7);
      assert Pow(2, 7) == 128;
      assert rest[1..] == bytes[n + 1..];
      LiftStep(b, Read(bits - shift - 7, rest[1..], false), n, shift, acc);
    }
  }

  lemma {:induction false} ReadAtStart(bits: nat, bytes: seq<byte>)
    ensures Lift(Read(bits, bytes[0..], true), 0, 0, 0) == Read(bits, bytes, true)
  {
    assert bytes[0..] == bytes && Pow(2, 0) == 1;
  }

  lemma {:induction false} ReadAtEnd(bits: nat, bytes: seq<byte>, n: nat, shift: nat, acc: nat)
    requires n == |bytes| && shift <= bits
    ensures Lift(Read(bits - shift, bytes[n..], shift == 0), n, shift, acc) == Ended(n, acc)
  {
  }

  ghost predicate Continues(bytes: seq<byte>, k: nat) {
    k <= |bytes| && forall j :: 0 <= j < k ==> bytes[j] >= 128
  }

  /** A zero byte after bytes that announced another one, within the bits. */
  ghost predicate ZeroAt(bits: nat, bytes: seq<byte>, k: nat) {
    k < |bytes| && 7 * k < bits && Continues(bytes, k) && bytes[k] == 0
  }

  /** The byte that holds the highest bits holds more than is left of them. */
  ghost predicate TooHighAt(bits: nat, bytes: seq<byte>, k: nat) {
    k < |bytes| && 7 * k < bits <= 7 * k + 7 && Continues(bytes, k) && bytes[k] >= Pow(2, bits - 7 * k)
  }

  /** Which inputs are refused, and with which of the two errors. */
  lemma {:induction false} RefusedExactly(bits: nat, bytes: seq<byte>, first: bool)
    requires bits > 0
    ensures Read(bits, bytes, first) == NonCanonical <==>
              exists k: nat :: (k > 0 || !first) && ZeroAt(bits, bytes, k)
    ensures Read(bits, bytes, first) == Overflow <==> exists k: nat :: TooHighAt(bits, bytes, k)
    decreases |bytes|
  {
    if bytes == [] {
      return;
    }
    PowSmall(bits);
    assert ZeroAt(bits, bytes, 0) <==> bytes[0] == 0;
    assert TooHighAt(bits, bytes, 0) <==> bits <= 7 && bytes[0] >= Pow(2, bits);
    hide Pow, ZeroAt, TooHighAt;
    if bits > 7 && bytes[0] >= 128 {
      var less, more := bits - 7, bytes[1..];
      RefusedExactly(less, more, false);
      forall k: nat | k > 0
        ensures (ZeroAt(bits, bytes, k) <==> ZeroAt(less, more, k - 1))
                && (TooHighAt(bits, bytes, k) <==> TooHighAt(less, more, k - 1))
      {
        RefusedLater(bits, bytes, k);
      }
      if k: nat :| ZeroAt(less, more, k) {
        assert ZeroAt(bits, bytes, k + 1);
      }
      if k: nat :| TooHighAt(less, more, k) {
        assert TooHighAt(bits, bytes, k + 1);
      }
    } else {
      forall k: nat | k > 0 ensures !ZeroAt(bits, bytes, k) && !TooHighAt(bits, bytes, k) {
        RefusedFirst(bits, bytes, k);
      }
    }
  }

  lemma {:induction false} RefusedFirst(bits: nat, bytes: seq<byte>, k: nat)
    requires bytes != [] && k > 0 && (bits <= 7 || bytes[0] < 128)
    ensures !ZeroAt(bits, bytes, k) && !TooHighAt(bits, bytes, k)
  {
    assert Continues(bytes, k) ==> bytes[0] >= 128;
  }

  lemma {:induction false} RefusedLater(bits: nat, bytes: seq<byte>, k: nat)
    requires bits > 7 && bytes != [] && bytes[0] >= 128 && k > 0
    ensures ZeroAt(bits, bytes, k) <==> ZeroAt(bits - 7, bytes[1..], k - 1)
    ensures TooHighAt(bits, bytes, k) <==> TooHighAt(bits - 7, bytes[1..], k - 1)
  {
    hide Pow, Continues;
    ContinuesMore(bytes, k - 1);
    assert bits - 7 * k == bits - 7 - 7 * (k - 1);
  }

  lemma {:induction false} ContinuesMore(bytes: seq<byte>, k: nat)
    requires bytes != [] && bytes[0] >= 128
    ensures Continues(bytes, k + 1) <==> Continues(bytes[1..], k)
    ensures k < |bytes| - 1 ==> bytes[1..][k] == bytes[k + 1]
  {
    if Continues(bytes[1..], k) {
      forall j | 0 <= j < k + 1 ensures bytes[j] >= 128 {
        assert j > 0 ==> bytes[j] == bytes[1..][j - 1];
      }
    }
  }

  /** `read_varint<bits>`; a number cut off by the end of the input is returned like a complete one. */
  method ReadVarint(bits: nat, bytes: seq<byte>) returns (read: int, i: nat)
    ensures match Read(bits, bytes, true)
            case Done(n, v) => read == n && i == v
            case Ended(n, v) => read == n && i == v
            case Overflow => read == -1
            case NonCanonical => read == -2
  {
    var n, shift := 0, 0;
    i := 0;
    ReadAtStart(bits, bytes);
    hide Read, Lift, Pow;
    while n < |bytes|
      invariant n <= |bytes| && shift <= bits && (n == 0 <==> shift == 0)
      invariant Read(bits, bytes, true) == Lift(Read(bits - shift, bytes[n..], shift == 0), n, shift, i)
      decreases |bytes| - n
    {
      ReadStep(bits, bytes, n, shift, i);
      var b := bytes[n];
      if shift + 7 >= bits && b >= Pow(2, bits - shift) {
        return -1, i;
      }
      if b == 0 && shift != 0 {
        return -2, i;
      }
      if b < 0x80 {
        return n + 1, i + b * Pow(2, shift);
      }
      assert b % 0x80 == b - 128;
      i := i + b % 0x80 * Pow(2, shift);
      n, shift := n + 1, shift + 7;
    }
    ReadAtEnd(bits, bytes, n, shift, i);
    read := n;
  }
}
