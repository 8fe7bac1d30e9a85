/** The index of main-chain block ids and the sparse chains that peers exchange to find where they fork. */
module BlockIds {
  import opened LedgerTypes
  import opened LedgerChain
  import opened LedgerReorg
  import opened Radix

  ghost predicate Unique(ids: seq<Hash>) {
    forall i, j :: 0 <= i < j < |ids| ==> ids[i] != ids[j]
  }

  /** Heights `end - i`, `end - 2i`, `end - 4i`, ... as long as they exist. */
  function Doubling(end: nat, last: nat, i: nat): (r: seq<nat>)
    requires 1 <= i && last <= end
    ensures forall k :: 0 <= k < |r| ==> r[k] <= end - i && end - last <= r[k]
    decreases last - i
  {
    if i > last then [] else [end - i] + Doubling(end, last, 2 * i)
  }

  /** The heights of a sparse chain over a main chain ending at `start`. */
  function MainHeights(start: nat): (r: seq<nat>)
    ensures r != []
  {
    var r := Doubling(start + 1, start + 1, 1);
    if r[|r| - 1] == 0 then r else r + [0]
  }

  /** The heights of a sparse chain over `n` alternative blocks on top of a main chain ending at `fork`. */
  function SparseHeights(fork: nat, n: nat): (r: seq<nat>)
    ensures r != []
  {
    Doubling(fork + n + 1, n, 1) + MainHeights(fork)
  }

  ghost predicate Descending(hs: seq<nat>) {
    forall i, j :: 0 <= i < j < |hs| ==> hs[i] > hs[j]
  }

  /** The distance `i`, doubled `k` times. */
  ghost function Stride(i: nat, k: nat): (r: nat) {
    i * Pow(2, k)
  }

  /** The steps double, and they stop when the next one would leave the chain. */
  lemma {:induction false} DoublingExactly(end: nat, last: nat, i: nat)
    requires 1 <= i && last <= end
    ensures var hs := Doubling(end, last, i);
            && (forall k :: 0 <= k < |hs| ==> hs[k] == end - Stride(i, k))
            && (hs != [] ==> Stride(i, |hs| - 1) <= last) && last < Stride(i, |hs|)
    decreases last - i
  {
    hide Stride;
    Unstretched(i);
    if i <= last {
      DoublingExactly(end, last, 2 * i);
      var hs, more := Doubling(end, last, i), Doubling(end, last, 2 * i);
      assert hs == [end - i] + more;
      hide Doubling;
      forall k | 0 <= k < |hs| ensures hs[k] == end - Stride(i, k) {
        if k > 0 {
          Stretched(i, k);
          assert hs[k] == more[k - 1];
        }
      }
      Stretched(i, |hs|);
      if more != [] {
        Stretched(i, |hs| - 1);
      }
    }
  }

  lemma {:induction false} Unstretched(i: nat)
    ensures Stride(i, 0) == i && forall k: nat :: Stride(1, k) == Pow(2, k)
  {
    assert Pow(2, 0) == 1;
    hide Pow;
  }

  lemma {:induction false} Stretched(i: nat, k: nat)
    requires k > 0
    ensures Stride(i, k) == Stride(2 * i, k - 1)
  {
    var p := Pow(2, k - 1);
    assert Pow(2, k) == 2 * p;
    hide Pow;
    assert i * (2 * p) == 2 * i * p;
  }

  lemma {:induction false} DoublingDescends(end: nat, last: nat, i: nat)
    requires 1 <= i && last <= end
    ensures Descending(Doubling(end, last, i))
    ensures i <= last ==> Doubling(end, last, i) != [] && Doubling(end, last, i)[0] == end - i
    decreases last - i
  {
    if i <= last {
      DoublingDescends(end, last, 2 * i);
    }
  }

  lemma {:induction false} MainShape(start: nat)
    ensures var hs := MainHeights(start);
            Descending(hs) && hs[0] == start && hs[|hs| - 1] == 0 && forall k :: 0 <= k < |hs| ==> hs[k] <= start
  {
    var d := Doubling(start + 1, start + 1, 1);
    DoublingDescends(start + 1, start + 1, 1);
    hide Doubling;
    if d[|d| - 1] != 0 {
      DownToZero(d);
      assert MainHeights(start) == d + [0];
    } else {
      assert MainHeights(start) == d;
    }
  }

  lemma {:induction false} DoublingLength(end: nat, last: nat)
    requires last <= end
    ensures var hs := Doubling(end, last, 1);
            (forall k :: 0 <= k < |hs| ==> hs[k] == end - Pow(2, k)) && Pow(2, |hs|) <= 2 * last + 1
  {
    hide Doubling, Pow, Stride;
    DoublingExactly(end, last, 1);
    Unstretched(1);
    Doubled(|Doubling(end, last, 1)|);
  }

  lemma {:induction false} Doubled(k: nat)
    ensures Pow(2, k) == if k == 0 then 1 else 2 * Pow(2, k - 1)
  {
  }

  /** From the tip down the steps double until the genesis block, so there are at most 2 + log2(start + 1) of them. */
  lemma {:induction false} MainSteps(start: nat)
    ensures var hs := MainHeights(start);
            && (forall k :: 0 <= k < |hs| - 1 ==> hs[k] == start + 1 - Pow(2, k)) && hs[|hs| - 1] == 0
            && Pow(2, |hs|) <= 4 * (start + 1)
  {
    hide Doubling, Pow;
    var d, hs := Doubling(start + 1, start + 1, 1), MainHeights(start);
    MainShape(start);
    DoublingLength(start + 1, start + 1);
    Doubled(|d|);
    Doubled(|d| + 1);
    assert hs == d || hs == d + [0];
    hide MainHeights;
    EvenBelow(Pow(2, |d|), start, |d|);
  }

  lemma {:induction false} EvenBelow(p: nat, start: nat, n: nat)
    requires p == Pow(2, n) && p <= 2 * (start + 1) + 1
    ensures p <= 2 * (start + 1)
  {
  }

  /** A sparse chain names at most 3 + log2(n + 1) + log2(fork + 1) blocks. */
  lemma {:induction false} SparseIsShort(fork: nat, n: nat)
    ensures Pow(2, |SparseHeights(fork, n)|) <= 2 * (n + 1) * (4 * (fork + 1))
  {
    hide Doubling, MainHeights, Pow;
    var a, b := |Doubling(fork + n + 1, n, 1)|, |MainHeights(fork)|;
    DoublingLength(fork + n + 1, n);
    MainSteps(fork);
    PowSum(2, a, b);
    ProductBelow(Pow(2, a), 2 * (n + 1), Pow(2, b), 4 * (fork + 1));
  }

  lemma {:induction false} ProductBelow(a: nat, b: nat, c: nat, d: nat)
    requires a <= b && c <= d
    ensures a * c <= b * d
  {
    assert b * d == a * c + a * (d - c) + (b - a) * d;
  }

  lemma {:induction false} DownToZero(d: seq<nat>)
    requires Descending(d) && d != [] && d[|d| - 1] != 0
    ensures Descending(d + [0])
  {
    forall k | 0 <= k < |d| ensures d[k] > 0 {
      assert k == |d| - 1 || d[k] > d[|d| - 1];
    }
  }

  /** A sparse chain starts at the tip, ends at the genesis block and descends strictly. */
  lemma {:induction false} SparseShape(fork: nat, n: nat)
    ensures var hs := SparseHeights(fork, n);
            Descending(hs) && hs[0] == fork + n && hs[|hs| - 1] == 0 && forall k :: 0 <= k < |hs| ==> hs[k] <= fork + n
  {
    MainShape(fork);
    DoublingDescends(fork + n + 1, n, 1);
    assert n == 0 ==> Doubling(fork + n + 1, n, 1) == [];
    hide Doubling, MainHeights;
  }

  /** The first listed height that is not above `k`. */
  function FirstBelow(hs: seq<nat>, k: nat): (r: Option<nat>)
    ensures r.Some? ==> r.value <= k && r.value in hs
  {
    if hs == [] then None else if hs[0] <= k then Some(hs[0]) else FirstBelow(hs[1..], k)
  }

  lemma {:induction false} FirstBelowConcat(a: seq<nat>, b: seq<nat>, k: nat)
    ensures FirstBelow(a + b, k) == if FirstBelow(a, k).Some? then FirstBelow(a, k) else FirstBelow(b, k)
  {
    if a == [] {
      assert a + b == b;
    } else {
      assert (a + b)[1..] == a[1..] + b;
      FirstBelowConcat(a[1..], b, k);
    }
  }

  /** Doubling steps overshoot height `k` by less than the distance already walked. */
  lemma {:induction false} DoublingClose(end: nat, last: nat, i: nat, k: nat)
    requires 1 <= i && last <= end && i < 2 * (end - k)
    ensures var m := FirstBelow(Doubling(end, last, i), k);
            if m.Some? then m.value <= k && k - m.value < end - k else last + 1 < 2 * (end - k) || k < end - last
    decreases last - i
  {
    if i <= last && end - i > k {
      DoublingClose(end, last, 2 * i, k);
      assert Doubling(end, last, i)[1..] == Doubling(end, last, 2 * i);
    }
  }

  lemma {:induction false} MainClose(start: nat, k: nat)
    requires k <= start
    ensures var m := FirstBelow(MainHeights(start), k);
            m.Some? && m.value <= k && k - m.value < start + 1 - k
  {
    var d := Doubling(start + 1, start + 1, 1);
    DoublingClose(start + 1, start + 1, 1, k);
    ZeroIsBelow(d, k);
    hide Doubling;
    FirstBelowConcat(d, [0], k);
  }

  lemma {:induction false} MainStart(start: nat, k: nat)
    requires start <= k
    ensures FirstBelow(MainHeights(start), k) == Some(start)
  {
    MainShape(start);
    hide Doubling, MainHeights;
  }

  /** For every fork height `k` some listed height m has m <= k and k - m < tip + 1 - k. */
  lemma {:induction false} SparseClose(fork: nat, n: nat, k: nat)
    requires k <= fork + n
    ensures var m := FirstBelow(SparseHeights(fork, n), k);
            m.Some? && m.value <= k && k - m.value < fork + n + 1 - k
  {
    hide Doubling, MainHeights, FirstBelow;
    FirstBelowConcat(Doubling(fork + n + 1, n, 1), MainHeights(fork), k);
    DoublingClose(fork + n + 1, n, 1, k);
    if k <= fork {
      MainClose(fork, k);
    } else {
      MainStart(fork, k);
    }
  }

  lemma {:induction false} ZeroIsBelow(hs: seq<nat>, k: nat)
    ensures 0 in hs ==> FirstBelow(hs, k).Some?
  {
    if hs != [] && hs[0] > k {
      ZeroIsBelow(hs[1..], k);
    }
  }

  ghost predicate Names(ids: seq<Hash>, chain: seq<Hash>, hs: seq<nat>) {
    |ids| == |hs| && forall i :: 0 <= i < |ids| ==> hs[i] < |chain| && ids[i] == chain[hs[i]]
  }

  /** The position, in a chain, of the first listed id that the chain has. */
  function FirstKnown(chain: seq<Hash>, ids: seq<Hash>): (r: Option<nat>)
    ensures r.Some? ==> r.value < |chain| && chain[r.value] in ids
    ensures r.None? <==> forall i :: 0 <= i < |ids| ==> ids[i] !in chain
  {
    if ids == [] then None
    else if ids[0] in chain then Some(IndexIn(chain, ids[0]))
    else
      var r := FirstKnown(chain, ids[1..]);
      assert forall i :: 0 < i < |ids| ==> ids[i] == ids[1..][i - 1];
      r
  }

  /** Two chains agree up to height `k`, and nothing of `mine` above `k` is in `theirs`. */
  ghost predicate ForkAt(mine: seq<Hash>, theirs: seq<Hash>, k: nat) {
    && k < |mine| && k < |theirs| && mine[..k + 1] == theirs[..k + 1]
    && forall j :: k < j < |mine| ==> mine[j] !in theirs
  }

  lemma {:induction false} FirstKnownIsFirstBelow(mine: seq<Hash>, theirs: seq<Hash>, k: nat, ids: seq<Hash>,
                                                  hs: seq<nat>)
    requires ForkAt(mine, theirs, k) && Unique(theirs) && Names(ids, mine, hs)
    ensures FirstKnown(theirs, ids) == FirstBelow(hs, k)
  {
    if ids != [] {
      var h := hs[0];
      if h <= k {
        assert mine[..k + 1][h] == theirs[..k + 1][h];
        assert theirs[h] == ids[0];
      } else {
        FirstKnownIsFirstBelow(mine, theirs, k, ids[1..], hs[1..]);
      }
    }
  }

  /**
   * A peer that gets the sparse chain of tip `fork + n` answers with a common block m, and the blocks above m
   * that both sides have are fewer than the blocks of the sender above the fork, plus one.
   */
  lemma {:induction false} SupplementIsClose(mine: seq<Hash>, theirs: seq<Hash>, k: nat, ids: seq<Hash>, fork: nat,
                                             n: nat)
    requires |mine| == fork + n + 1 && ForkAt(mine, theirs, k) && Unique(theirs)
    requires Names(ids, mine, SparseHeights(fork, n))
    ensures var m := FirstKnown(theirs, ids);
            m.Some? && m.value <= k && theirs[m.value] == mine[m.value] && k - m.value < |mine| - k
  {
    FirstKnownIsFirstBelow(mine, theirs, k, ids, SparseHeights(fork, n));
    SparseClose(fork, n, k);
    var m := FirstKnown(theirs, ids).value;
    assert mine[..k + 1][m] == theirs[..k + 1][m];
  }

  /** The ids of the stored alternatives that lead to a block, oldest first. */
  ghost function AltIds(alts: map<Hash, AltEntry>, from: Hash): (r: seq<Hash>)
    requires AltsOk(alts)
  {
    var path := Collected(alts, from);
    seq(|path|, i requires 0 <= i < |path| => BlockHash(path[i].bl))
  }

  /** The block that the oldest of them is built on. */
  ghost function AltRoot(alts: map<Hash, AltEntry>, from: Hash): (r: Hash)
    requires AltsOk(alts)
  {
    var path := Collected(alts, from);
    if path == [] then from else path[0].bl.previous
  }

  function Reversed(s: seq<Hash>): (r: seq<Hash>)
    ensures |r| == |s| && forall i :: 0 <= i < |s| ==> r[i] == s[|s| - 1 - i]
  {
    seq(|s|, i requires 0 <= i < |s| => s[|s| - 1 - i])
  }

  lemma {:induction false} DoublingStep(end: nat, last: nat, i: nat, done: seq<nat>)
    requires 1 <= i <= last <= end
    ensures done + Doubling(end, last, i) == done + [end - i] + Doubling(end, last, 2 * i)
  {
  }

  lemma {:induction false} DoublingEnd(end: nat, last: nat)
    requires last <= end
    ensures forall i: nat :: last < i ==> Doubling(end, last, i) == []
  {
  }

  /** For a main-chain block the alternative part is empty. */
  lemma {:induction false} MainOnly(ids: seq<Hash>, fork: nat, r: seq<Hash>)
    requires fork < |ids| && Names(r, ids, MainHeights(fork))
    ensures Names(r, ids[..fork + 1] + [], SparseHeights(fork, 0))
  {
    assert Doubling(fork + 1, 0, 1) == [];
    hide Doubling, MainHeights;
    MainShape(fork);
    assert SparseHeights(fork, 0) == MainHeights(fork);
  }

  lemma {:induction false} TopAndMain(ids: seq<Hash>, fork: nat, alternative: seq<Hash>, top: seq<Hash>,
                                      main: seq<Hash>)
    requires fork < |ids|
    requires Names(top, ids[..fork + 1] + Reversed(alternative), Doubling(fork + 1 + |alternative|, |alternative|, 1))
    requires Names(main, ids, MainHeights(fork))
    ensures Names(top + main, ids[..fork + 1] + Reversed(alternative), SparseHeights(fork, |alternative|))
  {
    MainShape(fork);
    hide Doubling, MainHeights;
    var chain := ids[..fork + 1] + Reversed(alternative);
    assert forall h :: 0 <= h <= fork ==> chain[h] == ids[h];
    assert Names(main, chain, MainHeights(fork));
  }

  class BlockIndex {
    var container: seq<Hash>

    ghost predicate Valid()
      reads this
    {
      Unique(container)
    }

    constructor ()
      ensures Valid() && container == []
    {
      container := [];
    }

    /** False, and nothing changes, when the id is already there. */
    method Push(h: Hash) returns (inserted: bool)
      requires Valid()
      modifies this
      ensures Valid()
      ensures inserted <==> h !in old(container)
      ensures container == if inserted then old(container) + [h] else old(container)
    {
      inserted := h !in container;
      if inserted {
        container := container + [h];
      }
    }

    method Pop()
      requires Valid() && container != []
      modifies this
      ensures Valid() && container + [old(container)[|old(container)| - 1]] == old(container)
    {
      container := container[..|container| - 1];
    }

    method GetBlockHeight(h: Hash) returns (height: Option<nat>)
      requires Valid()
      ensures height == if h in container then Some(IndexIn(container, h)) else None
      ensures forall i :: 0 <= i < |container| ==> (container[i] == h <==> height == Some(i))
    {
      height := FindId(container, h);
    }

    method GetBlockIds(start: nat, maxCount: nat) returns (r: seq<Hash>)
      ensures r == if start >= |container| then []
                   else if maxCount < |container| - start then container[start..start + maxCount]
                   else container[start..]
    {
      r := [];
      if start >= |container| {
        return;
      }
      var count := if maxCount < |container| - start then maxCount else |container| - start;
      for i := 0 to count
        invariant r == container[start..start + i]
      {
        r := r + [container[start + i]];
      }
    }

    method FindSupplement(ids: seq<Hash>) returns (r: Option<nat>)
      requires Valid()
      ensures r == FirstKnown(container, ids)
    {
      for i := 0 to |ids|
        invariant FirstKnown(container, ids) == FirstKnown(container, ids[i..])
      {
        r := GetBlockHeight(ids[i]);
        if r.Some? {
          return;
        }
        assert ids[i..][1..] == ids[i + 1..];
      }
      r := None;
    }

    /** The listed blocks are exactly those at the sparse heights below the start block. */
    method BuildSparseChain(start: Hash) returns (r: seq<Hash>)
      requires Valid() && start in container
      ensures Names(r, container, MainHeights(IndexIn(container, start)))
    {
      hide Doubling, IndexIn;
      var height := GetBlockHeight(start);
      var end := height.value + 1;
      ghost var hs := Doubling(end, end, 1);
      DoublingDescends(end, end, 1);
      r := DescendFrom(end);
      assert r[|r| - 1] == container[hs[|hs| - 1]];
      if r[|r| - 1] != container[0] {
        r := r + [container[0]];
      } else {
        assert hs[|hs| - 1] == 0;
      }
    }

    /** The blocks 1, 2, 4, ... below `end`. */
    method DescendFrom(end: nat) returns (r: seq<Hash>)
      requires end <= |container|
      ensures Names(r, container, Doubling(end, end, 1))
    {
      hide Doubling;
      DoublingEnd(end, end);
      ghost var done: seq<nat> := [];
      r := [];
      var i := 1;
      while i <= end
        invariant 1 <= i
        invariant Doubling(end, end, 1) == done + Doubling(end, end, i) && Names(r, container, done)
        decreases end - i
      {
        DoublingStep(end, end, i, done);
        done := done + [end - i];
        r := r + [container[end - i]];
        i := i * 2;
      }
      assert Doubling(end, end, 1) == done;
    }

    /** `Blockchain::doBuildSparseChain`: the same over the alternative chain that ends in `start`. */
    method DoBuildSparseChain(alts: map<Hash, AltEntry>, start: Hash) returns (r: seq<Hash>)
      requires Valid() && AltsOk(alts)
      requires start !in container ==> start in alts && AltRoot(alts, start) in container
      ensures var (root, top) := if start in container then (start, [])
                                 else (AltRoot(alts, start), AltIds(alts, start));
              var fork := IndexIn(container, root);
              Names(r, container[..fork + 1] + top, SparseHeights(fork, |top|))
    {
      hide *;
      if start in container {
        r := BuildSparseChain(start);
        MainOnly(container, IndexIn(container, start), r);
        return;
      }
      ghost var fork := IndexIn(container, AltRoot(alts, start));
      var alternative, ancestor := CollectPath(alts, start);
      var top := TopOfSparse(alternative, container[..fork + 1]);
      var main := BuildSparseChain(ancestor);
      TopAndMain(container, fork, alternative, top, main);
      r := top + main;
    }

    /** The newest, second, fourth, ... of the alternative blocks on top of a main chain. */
    method TopOfSparse(alternative: seq<Hash>, ghost main: seq<Hash>) returns (r: seq<Hash>)
      ensures Names(r, main + Reversed(alternative), Doubling(|main| + |alternative|, |alternative|, 1))
    {
      hide Doubling;
      ghost var end, n, chain := |main| + |alternative|, |alternative|, main + Reversed(alternative);
      DoublingEnd(end, n);
      ghost var done: seq<nat> := [];
      r := [];
      var i := 1;
      while i <= |alternative|
        invariant 1 <= i
        invariant Doubling(end, n, 1) == done + Doubling(end, n, i) && Names(r, chain, done)
        decreases |alternative| - i
      {
        DoublingStep(end, n, i, done);
        done := done + [end - i];
        assert chain[end - i] == Reversed(alternative)[n - i] == alternative[i - 1];
        r := r + [alternative[i - 1]];
        i := i * 2;
      }
      assert Doubling(end, n, 1) == done;
    }

    method CollectPath(alts: map<Hash, AltEntry>, start: Hash) returns (path: seq<Hash>, root: Hash)
      requires AltsOk(alts)
      ensures Reversed(path) == AltIds(alts, start) && root == AltRoot(alts, start)
    {
      path, root := [], start;
      while root in alts
        invariant AltIds(alts, start) == AltIds(alts, root) + Reversed(path)
        invariant AltRoot(alts, start) == AltRoot(alts, root)
        decreases root
      {
        AltStep(alts, root);
        assert Reversed(path + [root]) == [root] + Reversed(path);
        path := path + [root];
        root := alts[root].bl.previous;
      }
    }
  }

  lemma {:induction false} AltStep(alts: map<Hash, AltEntry>, from: Hash)
    requires AltsOk(alts) && from in alts
    ensures AltIds(alts, from) == AltIds(alts, alts[from].bl.previous) + [from]
    ensures AltRoot(alts, from) == AltRoot(alts, alts[from].bl.previous)
  {
  }
}
