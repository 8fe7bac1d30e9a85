/** The byte layout of a file-mapped vector: prefix, capacity word, size word, slots, suffix. */
module FileLayout {
  import opened LedgerTypes
  import opened Varints
  import opened Radix

  const WORD: nat := 8
  const METADATA: nat := 16

  /** What an open vector holds; `capacity` counts slots, of which the first |elements| are in use. */
  datatype Vec = Vec(prefix: seq<byte>, capacity: nat, elements: seq<seq<byte>>, suffix: seq<byte>)

  function Word(n: nat): (r: seq<byte>)
    ensures |r| == WORD
  {
    Digits(256, n, WORD)
  }

  function ReadWord(s: seq<byte>): (r: nat) {
    Value(256, s)
  }

  lemma {:induction false} WordRoundTrip(n: nat)
    requires n < TWO64
    ensures ReadWord(Word(n)) == n
  {
    assert Pow(256, 8) == TWO64;
    ValueOfDigits(256, n, WORD);
  }

  lemma {:induction false} WordOfRead(s: seq<byte>)
    requires |s| == WORD
    ensures Word(ReadWord(s)) == s && ReadWord(s) < TWO64
  {
    assert Pow(256, 8) == TWO64;
    ValueBound(256, s);
    DigitsOfValue(256, s);
  }

  function Flatten(es: seq<seq<byte>>): (r: seq<byte>) {
    if es == [] then [] else es[0] + Flatten(es[1..])
  }

  ghost predicate Sized(es: seq<seq<byte>>, w: nat) {
    forall i :: 0 <= i < |es| ==> |es[i]| == w
  }

  /** The first `n` slots of `w` bytes. */
  function Slots(data: seq<byte>, w: nat, n: nat): (r: seq<seq<byte>>)
    requires n * w <= |data|
    ensures |r| == n && Sized(r, w)
    decreases n
  {
    if n == 0 then []
    else
      assert n * w == w + (n - 1) * w;
      [data[..w]] + Slots(data[w..], w, n - 1)
  }

  lemma {:induction false} Product(n: nat, w: nat)
    ensures n * w >= 0
    ensures n > 0 ==> n * w == w + (n - 1) * w
    ensures (n + 1) * w == n * w + w
  {
  }

  lemma {:induction false} ProductMonotone(a: nat, b: nat, w: nat)
    requires a <= b
    ensures b * w == a * w + (b - a) * w && a * w <= b * w
  {
    assert (b - a) * w >= 0;
  }

  lemma {:induction false} FlattenLength(es: seq<seq<byte>>, w: nat)
    requires Sized(es, w)
    ensures |Flatten(es)| == |es| * w
  {
    if es != [] {
      FlattenLength(es[1..], w);
      Product(|es|, w);
    }
  }

  lemma {:induction false} FlattenAppend(es: seq<seq<byte>>, e: seq<byte>)
    ensures Flatten(es + [e]) == Flatten(es) + e
  {
    if es == [] {
      assert es + [e] == [e] && [e][1..] == [];
    } else {
      FlattenAppend(es[1..], e);
      assert (es + [e])[1..] == es[1..] + [e];
    }
  }

  lemma {:induction false} SlotsOfFlatten(es: seq<seq<byte>>, w: nat, rest: seq<byte>)
    requires Sized(es, w)
    ensures |es| * w <= |Flatten(es) + rest| && Slots(Flatten(es) + rest, w, |es|) == es
  {
    FlattenLength(es, w);
    if es != [] {
      SlotsOfFlatten(es[1..], w, rest);
      Product(|es|, w);
      var data := Flatten(es) + rest;
      assert data[..w] == es[0] && data[w..] == Flatten(es[1..]) + rest;
    }
  }

  lemma {:induction false} Prefixes(data: seq<byte>, a: nat, b: nat)
    requires a + b <= |data|
    ensures data[..a + b] == data[..a] + data[a..][..b]
  {
  }

  lemma {:induction false} FlattenOfSlots(data: seq<byte>, w: nat, n: nat)
    requires n * w <= |data|
    ensures Flatten(Slots(data, w, n)) == data[..n * w]
    decreases n
  {
    if n > 0 {
      Product(n, w);
      Product(n - 1, w);
      FlattenOfSlots(data[w..], w, n - 1);
      Prefixes(data, w, (n - 1) * w);
    }
  }

  /** `open(path, prefixSize)` on the bytes of the file; `None` for each of its three exceptions. */
  function OpenVec(bytes: seq<byte>, prefixSize: nat, w: nat): (r: Option<Vec>) {
    var p := prefixSize;
    if |bytes| < p + METADATA then None
    else
      var capacity, size := ReadWord(bytes[p..p + WORD]), ReadWord(bytes[p + WORD..p + METADATA]);
      if size > capacity || |bytes| < p + METADATA + capacity * w then None
      else
        ProductMonotone(size, capacity, w);
        Some(Vec(bytes[..p], capacity, Slots(bytes[p + METADATA..], w, size), bytes[p + METADATA + capacity * w..]))
  }

  /** A vector that a file can hold. */
  ghost predicate VecOk(v: Vec, w: nat) {
    Sized(v.elements, w) && |v.elements| <= v.capacity < TWO64
  }

  ghost function Slack(v: Vec, w: nat): (r: nat)
    requires VecOk(v, w)
  {
    (v.capacity - |v.elements|) * w
  }

  /** The file for a vector; `slack` is what the unused slots hold. */
  function VecBytes(v: Vec, slack: seq<byte>): (r: seq<byte>) {
    v.prefix + Word(v.capacity) + Word(|v.elements|) + Flatten(v.elements) + slack + v.suffix
  }

  lemma {:induction false} VecBytesParts(v: Vec, slack: seq<byte>, w: nat)
    requires VecOk(v, w) && |slack| == Slack(v, w)
    ensures var b, p, n := VecBytes(v, slack), |v.prefix|, |v.prefix| + METADATA + v.capacity * w;
            && |b| == n + |v.suffix| && b[..p] == v.prefix
            && b[p..p + WORD] == Word(v.capacity) && b[p + WORD..p + METADATA] == Word(|v.elements|)
            && b[p + METADATA..] == Flatten(v.elements) + (slack + v.suffix) && b[n..] == v.suffix
  {
    hide Word, Flatten;
    FlattenLength(v.elements, w);
    ProductMonotone(|v.elements|, v.capacity, w);
    var b, p := VecBytes(v, slack), |v.prefix|;
    var tail := Flatten(v.elements) + (slack + v.suffix);
    assert b == v.prefix + Word(v.capacity) + Word(|v.elements|) + tail;
    assert b[p + METADATA..] == tail;
  }

  /** Opening the file of a vector gives the vector back, whatever the unused slots hold. */
  lemma {:induction false} OpenOfBytes(v: Vec, slack: seq<byte>, w: nat)
    requires VecOk(v, w) && |slack| == Slack(v, w)
    ensures OpenVec(VecBytes(v, slack), |v.prefix|, w) == Some(v)
  {
    VecBytesParts(v, slack, w);
    WordRoundTrip(v.capacity);
    WordRoundTrip(|v.elements|);
    SlotsOfFlatten(v.elements, w, slack + v.suffix);
    hide Word, ReadWord, Flatten, Slots, VecBytes;
  }

  /** Where in the file the parts of a vector lie. */
  ghost predicate Parts(bytes: seq<byte>, p: nat, w: nat, v: Vec) {
    && VecOk(v, w) && p + METADATA + v.capacity * w <= |bytes| && |v.elements| * w <= v.capacity * w
    && v.prefix == bytes[..p] && v.suffix == bytes[p + METADATA + v.capacity * w..]
    && Word(v.capacity) == bytes[p..p + WORD] && Word(|v.elements|) == bytes[p + WORD..p + METADATA]
    && Flatten(v.elements) == bytes[p + METADATA..][..|v.elements| * w]
    && Slack(v, w) == v.capacity * w - |v.elements| * w
  }

  lemma {:induction false} OpenParts(bytes: seq<byte>, prefixSize: nat, w: nat)
    requires OpenVec(bytes, prefixSize, w).Some?
    ensures Parts(bytes, prefixSize, w, OpenVec(bytes, prefixSize, w).value)
  {
    hide Word, ReadWord, Flatten, Slots;
    var v, p := OpenVec(bytes, prefixSize, w).value, prefixSize;
    WordOfRead(bytes[p..p + WORD]);
    WordOfRead(bytes[p + WORD..p + METADATA]);
    ProductMonotone(|v.elements|, v.capacity, w);
    FlattenOfSlots(bytes[p + METADATA..], w, |v.elements|);
  }

  /** Conversely every file that opens is the file of the vector it opens to, for some contents of the unused slots. */
  lemma {:induction false} BytesOfOpen(bytes: seq<byte>, prefixSize: nat, w: nat) returns (slack: seq<byte>)
    requires OpenVec(bytes, prefixSize, w).Some?
    ensures var v := OpenVec(bytes, prefixSize, w).value;
            VecOk(v, w) && |v.prefix| == prefixSize && |slack| == Slack(v, w) && bytes == VecBytes(v, slack)
  {
    hide OpenVec, Word, Flatten, VecOk, Slack;
    OpenParts(bytes, prefixSize, w);
    var v, p := OpenVec(bytes, prefixSize, w).value, prefixSize;
    var used, all := |v.elements| * w, v.capacity * w;
    SixPieces(bytes, p, used, all);
    slack := bytes[p + METADATA + used..p + METADATA + all];
  }

  lemma {:induction false} SixPieces(b: seq<byte>, p: nat, used: nat, all: nat)
    requires used <= all && p + METADATA + all <= |b|
    ensures b[p + METADATA..][..used] == b[p + METADATA..p + METADATA + used]
    ensures b == b[..p] + b[p..p + WORD] + b[p + WORD..p + METADATA] + b[p + METADATA..p + METADATA + used]
                 + b[p + METADATA + used..p + METADATA + all] + b[p + METADATA + all..]
  {
  }
}
