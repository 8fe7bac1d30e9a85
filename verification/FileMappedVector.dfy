/**
 * The file-mapped vector and its crash behaviour (`FileMappedVector.h`).
 * `files` is what is durable on disk and `fuel` is the number of further durable effects before the machine stops,
 * so a contract that holds for every `fuel` holds for a crash after every step. Renames, removals and writes of one
 * word are atomic. Any other write goes through a state with arbitrary bytes (`torn`) until it is flushed.
 */
module FileMappedVectors {
  import opened LedgerTypes
  import opened Varints
  import opened FileLayout
  import Radix

  datatype OpenMode = OpenOnly | Create | OpenOrCreate

  const INITIAL_CAPACITY: nat := 10

  /**
   * The error that ends an update: removing a stale backup, building the temporary file, the first rename, or the
   * second one, after which the first may or may not be taken back.
   */
  datatype Failure = NoFailure | StaleBackup | Building | FirstRename | SecondRename(restored: bool)

  /** What happens around an update: the temporary name, half-written bytes, an error, and removals that do not work. */
  datatype Event = Event(tmp: string, torn: seq<byte>, failure: Failure, keepsTmp: bool, keepsBackup: bool)

  function Zeros(n: nat): (r: seq<byte>)
    ensures |r| == n
  {
    seq(n, _ => 0)
  }

  /** A prefix or suffix after its size changes: cut off, or followed by zeros. */
  function Resized(s: seq<byte>, n: nat): (r: seq<byte>)
    ensures |r| == n
    ensures n <= |s| ==> r == s[..n]
    ensures |s| <= n ==> r[..|s|] == s
  {
    if n <= |s| then s[..n] else s + Zeros(n - |s|)
  }

  function Splice(b: seq<byte>, at: nat, s: seq<byte>): (r: seq<byte>)
    requires at + |s| <= |b|
    ensures |r| == |b|
  {
    b[..at] + s + b[at + |s|..]
  }

  function Bak(path: string): (r: string)
    ensures r != path
  {
    path + ".bak"
  }

  /** The file that a later `open` finds: the file itself, or else its backup. */
  function Stored(files: map<string, seq<byte>>, path: string): (r: Option<seq<byte>>) {
    if path in files then Some(files[path])
    else if Bak(path) in files then Some(files[Bak(path)])
    else None
  }

  /** The vector that a later `open` gives. */
  function Recovered(files: map<string, seq<byte>>, path: string, prefixSize: nat, w: nat): (r: Option<Vec>) {
    var b := Stored(files, path);
    if b.None? then None else OpenVec(b.value, prefixSize, w)
  }

  /** Where the first unused slot begins. */
  function SlotAt(v: Vec, w: nat): (r: nat) {
    |v.prefix| + METADATA + |v.elements| * w
  }

  lemma {:induction false} SlackRoom(v: Vec, w: nat)
    requires VecOk(v, w) && |v.elements| < v.capacity
    ensures w <= Slack(v, w)
  {
    Product(v.capacity - |v.elements|, w);
  }

  lemma {:induction false} HeadLength(v: Vec, w: nat)
    requires VecOk(v, w)
    ensures |v.prefix + Word(v.capacity) + Word(|v.elements|) + Flatten(v.elements)| == SlotAt(v, w)
  {
    FlattenLength(v.elements, w);
    hide Word, Flatten;
  }

  /** Writing the first unused slot is invisible. */
  lemma {:induction false} SlotIsSlack(v: Vec, slack: seq<byte>, w: nat, s: seq<byte>)
    requires VecOk(v, w) && |s| == w <= |slack|
    ensures SlotAt(v, w) + w <= |VecBytes(v, slack)|
    ensures Splice(VecBytes(v, slack), SlotAt(v, w), s) == VecBytes(v, s + slack[w..])
  {
    HeadLength(v, w);
    hide Word, Flatten, VecOk, Splice, SlotAt;
    SlackIn(v.prefix + Word(v.capacity) + Word(|v.elements|) + Flatten(v.elements), slack, v.suffix, s);
  }

  lemma {:induction false} SlackIn(head: seq<byte>, slack: seq<byte>, suffix: seq<byte>, s: seq<byte>)
    requires |s| <= |slack|
    ensures Splice(head + slack + suffix, |head|, s) == head + (s + slack[|s|..]) + suffix
  {
  }

  /** Writing the size word makes the next slot part of the vector. */
  lemma {:induction false} SizeTakesSlot(v: Vec, e: seq<byte>, slack: seq<byte>)
    ensures |v.prefix| + METADATA <= |VecBytes(v, e + slack)|
    ensures Splice(VecBytes(v, e + slack), |v.prefix| + WORD, Word(|v.elements| + 1))
            == VecBytes(v.(elements := v.elements + [e]), slack)
  {
    FlattenAppend(v.elements, e);
    hide Word, Flatten, Splice;
    var head, body := v.prefix + Word(v.capacity), Flatten(v.elements);
    WordIn(head, Word(|v.elements|), body, e + slack, v.suffix, Word(|v.elements| + 1));
    Regroup(head, Word(|v.elements| + 1), body, e, slack, v.suffix);
  }

  lemma {:induction false} WordIn(head: seq<byte>, x: seq<byte>, body: seq<byte>, slack: seq<byte>, suffix: seq<byte>,
                                  y: seq<byte>)
    requires |x| == |y|
    ensures Splice(head + x + body + slack + suffix, |head|, y) == head + y + body + slack + suffix
  {
  }

  lemma {:induction false} Regroup(head: seq<byte>, x: seq<byte>, body: seq<byte>, e: seq<byte>, slack: seq<byte>,
                                   suffix: seq<byte>)
    ensures head + x + body + (e + slack) + suffix == head + x + (body + e) + slack + suffix
  {
  }

  /** Writing a smaller size word makes the last slot slack again. */
  lemma {:induction false} SizeDropsSlot(v: Vec, slack: seq<byte>)
    requires v.elements != []
    ensures var n := |v.elements| - 1;
            && |v.prefix| + METADATA <= |VecBytes(v, slack)|
            && Splice(VecBytes(v, slack), |v.prefix| + WORD, Word(n))
               == VecBytes(v.(elements := v.elements[..n]), v.elements[n] + slack)
  {
    var n := |v.elements| - 1;
    var t, e := v.elements[..n], v.elements[n];
    assert v.elements == t + [e];
    FlattenAppend(t, e);
    hide Word, Flatten, Splice;
    var head := v.prefix + Word(v.capacity);
    WordIn(head, Word(|v.elements|), Flatten(t) + e, slack, v.suffix, Word(n));
    Regroup(head, Word(n), Flatten(t), e, slack, v.suffix);
  }

  lemma {:induction false} OpenKeeps(bytes: seq<byte>, prefixSize: nat, w: nat)
    requires OpenVec(bytes, prefixSize, w).Some?
    ensures var v := OpenVec(bytes, prefixSize, w).value;
            && Sized(v.elements, w) && |v.elements| <= v.capacity < TWO64
            && Resized(v.prefix, prefixSize) == v.prefix && Resized(v.suffix, |v.suffix|) == v.suffix
  {
    OpenParts(bytes, prefixSize, w);
    hide OpenVec, Word, Flatten;
  }

  class FileMappedVector {
    const path: string
    const valueSize: nat
    var files: map<string, seq<byte>>
    var fuel: nat
    var filePath: string
    var prefixSize: nat

    constructor (path: string, valueSize: nat, files: map<string, seq<byte>>, fuel: nat)
      ensures this.path == path && this.valueSize == valueSize && this.files == files && this.fuel == fuel
    {
      this.path, this.valueSize, this.files, this.fuel := path, valueSize, files, fuel;
      filePath, prefixSize := path, 0;
    }

    /** The vector is open on its own file. */
    ghost predicate Valid()
      reads `files, `filePath, `prefixSize
    {
      filePath == path && path in files && OpenVec(files[path], prefixSize, valueSize).Some?
    }

    ghost function Contents(): Vec
      requires Valid()
      reads `files, `filePath, `prefixSize
    {
      OpenVec(files[path], prefixSize, valueSize).value
    }

    /** `unique_path` names a file that does not exist. */
    ghost predicate Fresh(ev: Event)
      reads `files
    {
      ev.tmp !in files && ev.tmp != path && ev.tmp != Bak(path)
    }

    // ---- Durable effects ----

    method Remove(p: string)
      modifies `files, `fuel
      ensures fuel == if old(fuel) > 0 then old(fuel) - 1 else 0
      ensures files == if old(fuel) > 0 then old(files) - {p} else old(files)
    {
      if fuel > 0 {
        fuel, files := fuel - 1, files - {p};
      }
    }

    method Rename(p: string, q: string)
      requires fuel > 0 ==> p in files
      modifies `files, `fuel
      ensures fuel == if old(fuel) > 0 then old(fuel) - 1 else 0
      ensures files == if old(fuel) > 0 then (old(files) - {p})[q := old(files)[p]] else old(files)
    {
      if fuel > 0 {
        fuel, files := fuel - 1, (files - {p})[q := files[p]];
      }
    }

    method Write(p: string, content: seq<byte>)
      modifies `files, `fuel
      ensures fuel == if old(fuel) > 0 then old(fuel) - 1 else 0
      ensures files == if old(fuel) > 0 then old(files)[p := content] else old(files)
    {
      if fuel > 0 {
        fuel, files := fuel - 1, files[p := content];
      }
    }

    // ---- Operations ----

    /** The update runs to its end: a stale backup can only be in the way if there is one. */
    ghost predicate Succeeds(ev: Event)
      reads `files
    {
      ev.failure.NoFailure? || (ev.failure.StaleBackup? && Bak(path) !in files)
    }

    /**
     * `atomicUpdate0`, for a new file `content`.
     * A crash at any point leaves exactly the old or exactly the new file to be found.
     */
    method AtomicUpdate0(content: seq<byte>, newPrefixSize: nat, ev: Event) returns (ok: bool)
      requires filePath in files && (filePath == path || filePath == Bak(path))
      requires Fresh(ev)
      modifies `files, `fuel, `filePath, `prefixSize
      ensures ok <==> old(filePath) == path && old(Succeeds(ev))
      ensures fuel <= old(fuel) && prefixSize == if ok then newPrefixSize else old(prefixSize)
      ensures old(filePath) != path ==> files == old(files) && filePath == old(filePath) && fuel == old(fuel)
      ensures old(filePath) == path ==>
                Stored(files, path) == Some(old(files[path])) || (ok && Stored(files, path) == Some(content))
      ensures ok && fuel > 0 ==>
                && filePath == path && Stored(files, path) == Some(content)
                && files == (if ev.keepsBackup then old(files)[Bak(path) := old(files[path])]
                             else old(files) - {Bak(path)})
                            [path := content]
      ensures !ok && fuel > 0 && old(filePath) == path ==>
                && Stored(files, path) == Some(old(files[path])) && (ev.tmp in files ==> ev.keepsTmp)
                && filePath == if ev.failure == SecondRename(false) then Bak(path) else path
    {
      if filePath != path {
        return false;
      }
      hide Stored, Bak;
      OwnFileFound(files, path);
      ok := Prepare(content, ev);
      OwnFileFound(files, path);
      if !ok {
        return false;
      }
      ghost var ready := files;
      ok := SwapFiles(content, newPrefixSize, ev);
      assert ready == (old(files) - {Bak(path)})[ev.tmp := content] ==>
          && (ready - {ev.tmp})[path := content] == (old(files) - {Bak(path)})[path := content]
          && (ready - {ev.tmp})[Bak(path) := old(files[path])][path := content]
             == old(files)[Bak(path) := old(files[path])][path := content];
    }

    /** Deletes the temporary file, ignoring errors. */
    method DropTmp(ev: Event)
      modifies `files, `fuel
      ensures fuel <= old(fuel)
      ensures files == if old(fuel) > 0 && !ev.keepsTmp then old(files) - {ev.tmp} else old(files)
    {
      if !ev.keepsTmp {
        Remove(ev.tmp);
      }
    }

    /** Everything before the first rename leaves the vector's own file alone. */
    method Prepare(content: seq<byte>, ev: Event) returns (ok: bool)
      requires path in files && Fresh(ev)
      modifies `files, `fuel
      ensures fuel <= old(fuel) && path in files && files[path] == old(files[path])
      ensures ok <==> old(Succeeds(ev)) || ev.failure.FirstRename? || ev.failure.SecondRename?
      ensures ok && fuel > 0 ==> files == (old(files) - {Bak(path)})[ev.tmp := content]
      ensures !ok && fuel > 0 ==> ev.tmp in files ==> ev.keepsTmp
    {
      hide Bak;
      var bak := Bak(path);
      if bak in files {
        if ev.failure.StaleBackup? {
          return false;
        }
        Remove(bak);
      }
      assert fuel > 0 ==> files == old(files) - {bak};
      Write(ev.tmp, ev.torn);
      if ev.failure.Building? {
        DropTmp(ev);
        return false;
      }
      Write(ev.tmp, content);
      ok := true;
    }

    /** The two renames and the removal of the backup. */
    method SwapFiles(content: seq<byte>, newPrefixSize: nat, ev: Event) returns (ok: bool)
      requires filePath == path && path in files && ev.tmp != path && ev.tmp != Bak(path)
      requires fuel > 0 ==> ev.tmp in files && files[ev.tmp] == content && Bak(path) !in files
      modifies `files, `fuel, `filePath, `prefixSize
      ensures ok <==> !ev.failure.FirstRename? && !ev.failure.SecondRename?
      ensures fuel <= old(fuel) && prefixSize == if ok then newPrefixSize else old(prefixSize)
      ensures Stored(files, path) == Some(old(files[path])) || (ok && Stored(files, path) == Some(content))
      ensures ok && fuel > 0 ==>
                && filePath == path && Stored(files, path) == Some(content)
                && files == (if ev.keepsBackup then (old(files) - {ev.tmp})[Bak(path) := old(files[path])]
                             else old(files) - {ev.tmp})[path := content]
      ensures !ok && fuel > 0 ==> Stored(files, path) == Some(old(files[path])) && (ev.tmp in files ==> ev.keepsTmp)
      ensures !ok ==> filePath == if ev.failure == SecondRename(false) then Bak(path) else path
    {
      var bak := Bak(path);
      hide Bak;
      if ev.failure.FirstRename? {
        DropTmp(ev);
        return false;
      }
      Rename(path, bak);
      filePath := bak;
      if ev.failure.SecondRename? {
        if ev.failure.restored {
          Rename(bak, path);
          filePath := path;
        }
        DropTmp(ev);
        return false;
      }
      Rename(ev.tmp, path);
      filePath, prefixSize := path, newPrefixSize;
      if !ev.keepsBackup {
        Remove(bak);
      }
      ok := true;
    }

    /** `atomicUpdate`: the vector is rewritten with new elements and with its prefix and suffix resized. */
    method AtomicUpdate(elements: seq<seq<byte>>, newCapacity: nat, newPrefixSize: nat, newSuffixSize: nat, ev: Event)
      returns (ok: bool)
      requires Valid() && Sized(elements, valueSize) && |elements| <= newCapacity < TWO64
      requires Fresh(ev)
      modifies `files, `fuel, `filePath, `prefixSize
      ensures ok <==> old(Succeeds(ev))
      ensures fuel <= old(fuel) && prefixSize == if ok then newPrefixSize else old(prefixSize)
      ensures var was := old(Contents());
              var v := Vec(Resized(was.prefix, newPrefixSize), newCapacity, elements,
                           Resized(was.suffix, newSuffixSize));
              && (|| Recovered(files, path, old(prefixSize), valueSize) == Some(was)
                  || (ok && Recovered(files, path, newPrefixSize, valueSize) == Some(v)))
              && (ok && fuel > 0 ==> Valid() && Contents() == v)
              && (!ok && fuel > 0 ==> Recovered(files, path, prefixSize, valueSize) == Some(was))
    {
      var was := OpenVec(files[path], prefixSize, valueSize).value;
      var v := Vec(Resized(was.prefix, newPrefixSize), newCapacity, elements, Resized(was.suffix, newSuffixSize));
      Product(newCapacity - |elements|, valueSize);
      var slack := Zeros((newCapacity - |elements|) * valueSize);
      OpenOfBytes(v, slack, valueSize);
      ok := AtomicUpdate0(VecBytes(v, slack), newPrefixSize, ev);
    }

    method Erase(first: nat, last: nat, ev: Event) returns (ok: bool)
      requires Valid() && first <= last <= |Contents().elements| && Fresh(ev)
      modifies `files, `fuel, `filePath, `prefixSize
      ensures var was := old(Contents());
              var v := was.(elements := was.elements[..first] + was.elements[last..]);
              && prefixSize == old(prefixSize)
              && Recovered(files, path, prefixSize, valueSize) in {Some(was), Some(v)}
              && (ok && fuel > 0 ==> Valid() && Contents() == v)
    {
      hide OpenVec, Recovered, Resized, VecOk;
      var was := OpenVec(files[path], prefixSize, valueSize).value;
      OpenKeeps(files[path], prefixSize, valueSize);
      ok := AtomicUpdate(was.elements[..first] + was.elements[last..], was.capacity, prefixSize, |was.suffix|, ev);
    }

    method Insert(at: nat, vals: seq<seq<byte>>, ev: Event) returns (ok: bool)
      requires Valid() && at <= |Contents().elements| && Sized(vals, valueSize) && Fresh(ev)
      requires |Contents().elements| + |vals| < TWO64 && NextCapacity(Contents().capacity) < TWO64
      modifies `files, `fuel, `filePath, `prefixSize
      ensures var was := old(Contents());
              var elements := was.elements[..at] + vals + was.elements[at..];
              var v := was.(elements := elements, capacity := Grown(was.capacity, |elements|));
              && prefixSize == old(prefixSize)
              && Recovered(files, path, prefixSize, valueSize) in {Some(was), Some(v)}
              && (ok && fuel > 0 ==> Valid() && Contents() == v)
    {
      hide OpenVec, Recovered, Resized, VecOk, Grown;
      var was := OpenVec(files[path], prefixSize, valueSize).value;
      OpenKeeps(files[path], prefixSize, valueSize);
      GrownFits(was.capacity, |was.elements| + |vals|);
      var elements := was.elements[..at] + vals + was.elements[at..];
      ok := AtomicUpdate(elements, Grown(was.capacity, |elements|), prefixSize, |was.suffix|, ev);
    }

    method Reserve(n: nat, ev: Event) returns (ok: bool)
      requires Valid() && Fresh(ev) && n < TWO64
      modifies `files, `fuel, `filePath, `prefixSize
      ensures var was := old(Contents());
              var v := if n > was.capacity then was.(capacity := n) else was;
              && prefixSize == old(prefixSize) && fuel <= old(fuel)
              && Recovered(files, path, prefixSize, valueSize) in {Some(was), Some(v)}
              && (ok && fuel > 0 ==> Valid() && Contents() == v)
              && (!ok && fuel > 0 ==> Recovered(files, path, prefixSize, valueSize) == Some(was))
              && (n <= was.capacity ==> ok)
    {
      hide OpenVec, Resized, VecOk;
      var was := OpenVec(files[path], prefixSize, valueSize).value;
      OpenKeeps(files[path], prefixSize, valueSize);
      if n > was.capacity {
        hide Recovered;
        ok := AtomicUpdate(was.elements, n, prefixSize, |was.suffix|, ev);
      } else {
        ok := true;
      }
    }

    /** `resizePrefix`: after a crash the file found opens with the old or with the new prefix size. */
    method ResizePrefix(n: nat, ev: Event) returns (ok: bool)
      requires Valid() && Fresh(ev)
      modifies `files, `fuel, `filePath, `prefixSize
      ensures var was := old(Contents());
              var v := was.(prefix := Resized(was.prefix, n));
              && (|| Recovered(files, path, old(prefixSize), valueSize) == Some(was)
                  || Recovered(files, path, n, valueSize) == Some(v))
              && (ok && fuel > 0 ==> Valid() && prefixSize == n && Contents() == v)
    {
      hide OpenVec, Resized, VecOk;
      var was := OpenVec(files[path], prefixSize, valueSize).value;
      OpenKeeps(files[path], prefixSize, valueSize);
      if prefixSize != n {
        hide Recovered;
        ok := AtomicUpdate(was.elements, was.capacity, n, |was.suffix|, ev);
      } else {
        assert Resized(was.prefix, n) == was.prefix;
        ok := true;
      }
    }

    /** Writes that go through arbitrary bytes before they are flushed. */
    method WriteSlot(at: nat, s: seq<byte>, torn: seq<byte>)
      requires path in files && at + |s| <= |files[path]| && |torn| == |s|
      modifies `files, `fuel
      ensures fuel <= old(fuel) && path in files && files.Keys == old(files.Keys)
      ensures files[path] in {old(files[path]), Splice(old(files[path]), at, torn), Splice(old(files[path]), at, s)}
      ensures fuel > 0 ==> files[path] == Splice(old(files[path]), at, s)
    {
      var b := files[path];
      hide Splice;
      Write(path, Splice(b, at, torn));
      Write(path, Splice(b, at, s));
    }

    /** The element is written and flushed before the size word makes it visible. */
    method AppendElement(val: seq<byte>, torn: seq<byte>)
      requires Valid() && |Contents().elements| < Contents().capacity && |val| == |torn| == valueSize
      modifies `files, `fuel
      ensures fuel <= old(fuel)
      ensures var was := old(Contents());
              var v := was.(elements := was.elements + [val]);
              && Recovered(files, path, prefixSize, valueSize) in {Some(was), Some(v)}
              && (fuel > 0 ==> Valid() && Contents() == v)
    {
      var v := OpenVec(files[path], prefixSize, valueSize).value;
      ghost var slack := BytesOfOpen(files[path], prefixSize, valueSize);
      hide OpenVec, VecBytes, Splice, Word, VecOk, Slack, SlotAt;
      SlackRoom(v, valueSize);
      AppendBytes(v, slack, valueSize, val, torn);
      WriteSlot(SlotAt(v, valueSize), val, torn);
      assert OpenVec(files[path], prefixSize, valueSize) == Some(v);
      var b := files[path];
      if fuel > 0 {
        Write(path, Splice(b, prefixSize + WORD, Word(|v.elements| + 1)));
      }
    }

    /**
     * `push_back` with automatic flushing. A crash at any point leaves the old vector, perhaps with more room, or the
     * vector with exactly the new element at its end.
     */
    method PushBack(val: seq<byte>, torn: seq<byte>, ev: Event) returns (ok: bool)
      requires Valid() && |val| == |torn| == valueSize && Fresh(ev) && NextCapacity(Contents().capacity) < TWO64
      modifies `files, `fuel, `filePath, `prefixSize
      ensures var was := old(Contents());
              var v := was.(elements := was.elements + [val], capacity := Grown(was.capacity, |was.elements| + 1));
              var found := Recovered(files, path, prefixSize, valueSize);
              && prefixSize == old(prefixSize)
              && found.Some? && (Same(found.value, was) || found == Some(v))
              && (ok && fuel > 0 ==> Valid() && Contents() == v)
              && (!ok && fuel > 0 ==> found == Some(was))
    {
      hide OpenVec, Recovered;
      var was := OpenVec(files[path], prefixSize, valueSize).value;
      OpenKeeps(files[path], prefixSize, valueSize);
      ok := true;
      if was.capacity == |was.elements| {
        ok := Reserve(NextCapacity(was.capacity), ev);
      } else {
        FoundNow(files, path, prefixSize, valueSize);
      }
      if ok && fuel > 0 {
        AppendElement(val, torn);
      }
    }

    method PopBack()
      requires Valid() && Contents().elements != []
      modifies `files, `fuel
      ensures var was := old(Contents());
              var v := was.(elements := was.elements[..|was.elements| - 1]);
              && Recovered(files, path, prefixSize, valueSize) in {Some(was), Some(v)}
              && (fuel > 0 ==> Valid() && Contents() == v)
    {
      var v := OpenVec(files[path], prefixSize, valueSize).value;
      ghost var slack := BytesOfOpen(files[path], prefixSize, valueSize);
      hide OpenVec, VecBytes, Splice, Word, VecOk, Slack;
      PopBytes(v, slack, valueSize);
      Write(path, Splice(files[path], prefixSize + WORD, Word(|v.elements| - 1)));
    }

    /**
     * `open(path, mode, prefixSize)`: what is found does not depend on a crash while opening, and what is opened is
     * what was found. Opening never creates a file where one was found, and creating never replaces one. A crash
     * after the first of the three steps of creating leaves a file that does not open, after the second one that
     * opens without room and with a suffix; the created vector is found exactly if all three happened.
     */
    method Open(mode: OpenMode, prefixBytes: nat) returns (ok: bool)
      modifies `files, `fuel, `filePath, `prefixSize
      ensures Stored(old(files), path).Some? ==> Stored(files, path) == Stored(old(files), path)
      ensures Stored(old(files), path).Some? && fuel > 0 ==>
                (ok <==> mode != Create && Recovered(old(files), path, prefixBytes, valueSize).Some?)
      ensures Stored(old(files), path).None? && fuel > 0 ==> (ok <==> mode != OpenOnly)
      ensures Stored(old(files), path).None? && mode == OpenOnly ==> files == old(files)
      ensures Stored(old(files), path).None? && mode != OpenOnly ==>
                var found := Recovered(files, path, prefixBytes, valueSize);
                && (Stored(files, path).None? <==> old(fuel) == 0)
                && (Stored(files, path).Some? && found.None? <==> old(fuel) == 1)
                && (found == Some(HalfCreated(prefixBytes, valueSize)) <==> old(fuel) == 2)
                && (found == Some(Created(prefixBytes)) <==> old(fuel) >= 3)
      ensures ok && fuel > 0 ==>
                && Valid() && prefixSize == prefixBytes && Bak(path) !in files
                && Contents() == if Stored(old(files), path).Some?
                                 then Recovered(old(files), path, prefixBytes, valueSize).value
                                 else Created(prefixBytes)
    {
      hide OpenVec, VecBytes, Zeros, Created, HalfCreated;
      var bak := Bak(path);
      hide Bak;
      var present := true;
      if path in files {
        if bak in files {
          Remove(bak);
        }
      } else if bak in files {
        Rename(bak, path);
      } else {
        present := false;
      }
      filePath, prefixSize := path, prefixBytes;
      if mode == OpenOnly || (mode == OpenOrCreate && present) {
        ok := path in files && OpenVec(files[path], prefixBytes, valueSize).Some?;
      } else {
        ok := !present;
        if ok {
          CreateSteps(prefixBytes, valueSize);
          Write(path, []);
          Write(path, Zeros(CreatedSize(prefixBytes, valueSize)));
          Write(path, VecBytes(Created(prefixBytes), Zeros(INITIAL_CAPACITY * valueSize)));
        }
      }
    }
  }

  /** The vector in a new file. */
  function Created(prefixSize: nat): Vec {
    Vec(Zeros(prefixSize), INITIAL_CAPACITY, [], [])
  }

  /** What a new file opens to before its capacity word is written: all the room counts as a suffix. */
  function HalfCreated(prefixSize: nat, w: nat): Vec {
    Vec(Zeros(prefixSize), 0, [], Zeros(INITIAL_CAPACITY * w))
  }

  function CreatedSize(prefixSize: nat, w: nat): nat {
    prefixSize + METADATA + INITIAL_CAPACITY * w
  }

  /** The three states of a file that is being created; they open to different results. */
  lemma {:induction false} CreateSteps(prefixSize: nat, w: nat)
    ensures HalfCreated(prefixSize, w) != Created(prefixSize)
    ensures OpenVec([], prefixSize, w) == None
    ensures OpenVec(Zeros(CreatedSize(prefixSize, w)), prefixSize, w) == Some(HalfCreated(prefixSize, w))
    ensures OpenVec(VecBytes(Created(prefixSize), Zeros(INITIAL_CAPACITY * w)), prefixSize, w)
            == Some(Created(prefixSize))
  {
    OpenOfBytes(Created(prefixSize), Zeros(INITIAL_CAPACITY * w), w);
    ZeroFile(prefixSize, w);
    OpenOfBytes(HalfCreated(prefixSize, w), [], w);
    hide VecBytes;
  }

  lemma {:induction false} ZeroFile(prefixSize: nat, w: nat)
    ensures Zeros(CreatedSize(prefixSize, w)) == VecBytes(HalfCreated(prefixSize, w), [])
  {
    Radix.ZeroDigits(256, WORD);
    assert Word(0) == Zeros(WORD);
    hide Word;
    var p, q := Zeros(prefixSize), Zeros(INITIAL_CAPACITY * w);
    assert Flatten([]) == [];
    assert VecBytes(HalfCreated(prefixSize, w), []) == p + Zeros(WORD) + Zeros(WORD) + [] + [] + q;
  }

  lemma {:induction false} OwnFileFound(files: map<string, seq<byte>>, path: string)
    requires path in files
    ensures Stored(files, path) == Some(files[path])
  {
  }

  lemma {:induction false} FoundNow(files: map<string, seq<byte>>, path: string, prefixSize: nat, w: nat)
    requires path in files
    ensures Recovered(files, path, prefixSize, w) == OpenVec(files[path], prefixSize, w)
  {
  }

  lemma {:induction false} PopBytes(v: Vec, slack: seq<byte>, w: nat)
    requires VecOk(v, w) && v.elements != [] && |slack| == Slack(v, w)
    ensures var b := VecBytes(v, slack);
            && |v.prefix| + METADATA <= |b| && OpenVec(b, |v.prefix|, w) == Some(v)
            && OpenVec(Splice(b, |v.prefix| + WORD, Word(|v.elements| - 1)), |v.prefix|, w)
               == Some(v.(elements := v.elements[..|v.elements| - 1]))
  {
    hide OpenVec, VecBytes, Splice, Word;
    var n := |v.elements| - 1;
    var t, e := v.(elements := v.elements[..n]), v.elements[n];
    assert v.elements == t.elements + [e];
    SlackAfter(t, w, e);
    hide Slack, VecOk;
    SizeDropsSlot(v, slack);
    OpenOfBytes(v, slack, w);
    OpenOfBytes(t, e + slack, w);
  }

  /** Equal but for the room to grow. */
  ghost predicate Same(a: Vec, b: Vec) {
    a == b.(capacity := a.capacity)
  }

  function NextCapacity(capacity: nat): (r: nat)
    ensures r > capacity
  {
    capacity + capacity / 2 + 1
  }

  /** The capacity after growing `k` times. */
  ghost function AfterGrowing(capacity: nat, k: nat): (r: nat) {
    if k == 0 then capacity else NextCapacity(AfterGrowing(capacity, k - 1))
  }

  /** Growing is geometric: each time by more than half, so that few growths make room for many elements. */
  lemma {:induction false} GrowthIsGeometric(capacity: nat, k: nat)
    ensures Radix.Pow(2, k) * (AfterGrowing(capacity, k) + 1) >= Radix.Pow(3, k) * (capacity + 1)
  {
    if k > 0 {
      GrowthIsGeometric(capacity, k - 1);
      var x, y := AfterGrowing(capacity, k - 1), AfterGrowing(capacity, k);
      assert 2 * (y + 1) >= 3 * (x + 1);
      GrowthStep(Radix.Pow(2, k - 1), Radix.Pow(3, k - 1), x + 1, y + 1, capacity + 1);
    }
  }

  lemma {:induction false} GrowthStep(p: nat, q: nat, x: nat, y: nat, c: nat)
    requires p * x >= q * c && 2 * y >= 3 * x
    ensures 2 * p * y >= 3 * q * c
  {
    assert 2 * p * y - 3 * p * x == p * (2 * y - 3 * x);
    assert 3 * p * x == 3 * (p * x) && 3 * q * c == 3 * (q * c);
  }

  function Grown(capacity: nat, size: nat): (r: nat)
    ensures size <= r && capacity <= r && (size <= capacity ==> r == capacity)
  {
    if size > capacity then
      if size > NextCapacity(capacity) then size else NextCapacity(capacity)
    else capacity
  }

  lemma {:induction false} GrownFits(capacity: nat, size: nat)
    requires capacity < TWO64 && size < TWO64 && NextCapacity(capacity) < TWO64
    ensures Grown(capacity, size) < TWO64
  {
  }

  /** The three files that writing a slot and then the size word go through. */
  lemma {:induction false} AppendBytes(v: Vec, slack: seq<byte>, w: nat, val: seq<byte>, torn: seq<byte>)
    requires VecOk(v, w) && |v.elements| < v.capacity && |slack| == Slack(v, w) && w <= |slack| && |val| == |torn| == w
    ensures var b := VecBytes(v, slack);
            && SlotAt(v, w) + w <= |b| && |v.prefix| + METADATA <= |b|
            && OpenVec(b, |v.prefix|, w) == Some(v)
            && OpenVec(Splice(b, SlotAt(v, w), torn), |v.prefix|, w) == Some(v)
            && OpenVec(Splice(b, SlotAt(v, w), val), |v.prefix|, w) == Some(v)
            && OpenVec(Splice(Splice(b, SlotAt(v, w), val), |v.prefix| + WORD, Word(|v.elements| + 1)), |v.prefix|, w)
               == Some(v.(elements := v.elements + [val]))
  {
    SlotIsSlack(v, slack, w, torn);
    SlotIsSlack(v, slack, w, val);
    OpenOfBytes(v, slack, w);
    OpenOfBytes(v, torn + slack[w..], w);
    OpenOfBytes(v, val + slack[w..], w);
    SizeTakesSlot(v, val, slack[w..]);
    SlackAfter(v, w, val);
    OpenOfBytes(v.(elements := v.elements + [val]), slack[w..], w);
    hide OpenVec, VecBytes, Splice, Word, SlotAt;
  }

  lemma {:induction false} SlackAfter(v: Vec, w: nat, val: seq<byte>)
    requires VecOk(v, w) && |v.elements| < v.capacity && |val| == w
    ensures var t := v.(elements := v.elements + [val]); VecOk(t, w) && Slack(t, w) == Slack(v, w) - w
  {
    Product(v.capacity - |v.elements|, w);
  }
}
