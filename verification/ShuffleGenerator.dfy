/** A shuffled stream of 0..N-1 that stores only the moved positions (`ShuffleGenerator.h`). */
module Shuffle {
  import opened LedgerTypes

  function Identity(n: nat): (r: seq<nat>)
    ensures |r| == n && forall i :: 0 <= i < n ==> r[i] == i
  {
    seq(n, i => i)
  }

  /** One step of Fisher-Yates on an explicit array: emit position `k`, move the last value there, shrink. */
  function Removed(live: seq<nat>, k: nat): (r: seq<nat>)
    requires k < |live|
    ensures |r| == |live| - 1
  {
    live[k := live[|live| - 1]][..|live| - 1]
  }

  /** The step removes exactly the emitted value from the live values. */
  lemma {:induction false} RemovedContents(live: seq<nat>, k: nat)
    requires k < |live|
    ensures multiset(live) == multiset{live[k]} + multiset(Removed(live, k))
  {
    var n := |live| - 1;
    var moved := live[k := live[n]];
    assert live == live[..n] + [live[n]];
    assert moved == moved[..n] + [moved[n]];
    assert moved[n] == live[n];
    if k < n {
      assert multiset(moved) == multiset(live) - multiset{live[k]} + multiset{live[n]};
    } else {
      assert moved == live;
    }
  }

  lemma {:induction false} StillAll(emitted: seq<nat>, live: seq<nat>, k: nat, all: multiset<nat>)
    requires k < |live| && multiset(emitted) + multiset(live) == all
    ensures multiset(emitted + [live[k]]) + multiset(Removed(live, k)) == all
  {
    RemovedContents(live, k);
  }

  /** The value at a position of the array that the sparse map stands for. */
  function At(selected: map<nat, nat>, i: nat): (r: nat) {
    if i in selected then selected[i] else i
  }

  /** The not yet emitted values. */
  function LiveOf(selected: map<nat, nat>, count: nat): (r: seq<nat>)
    ensures |r| == count && forall i :: 0 <= i < count ==> r[i] == At(selected, i)
  {
    seq(count, i requires 0 <= i => At(selected, i))
  }

  /** Overwriting one entry of the sparse map is the step on the array. */
  lemma {:induction false} SparseStep(selected: map<nat, nat>, count: nat, k: nat)
    requires k < count
    ensures LiveOf(selected[k := At(selected, count - 1)], count - 1) == Removed(LiveOf(selected, count), k)
  {
    var after := selected[k := At(selected, count - 1)];
    forall i | 0 <= i < count - 1 ensures At(after, i) == if i == k then At(selected, count - 1) else At(selected, i) {
    }
  }

  class ShuffleGenerator {
    const N: nat
    var count: nat
    var selected: map<nat, nat>
    ghost var emitted: seq<nat>

    ghost function Live(): seq<nat>
      reads this
    {
      LiveOf(selected, count)
    }

    /** What was emitted and what is live together are always exactly 0..N-1. */
    ghost predicate Valid()
      reads this
    {
      |emitted| + count == N && multiset(emitted) + multiset(Live()) == multiset(Identity(N))
    }

    constructor (n: nat)
      ensures Valid() && N == n && emitted == []
    {
      N, count, selected, emitted := n, n, map[], [];
      new;
      assert Live() == Identity(n);
    }

    method Reset()
      modifies this
      ensures Valid() && emitted == []
    {
      count, selected, emitted := N, map[], [];
      assert Live() == Identity(N);
    }

    /** `operator()`; `choice` is the random draw, `None` the exception at the end of the sequence. */
    method Next(choice: nat) returns (r: Option<nat>)
      requires Valid() && (count > 0 ==> choice < count)
      modifies this
      ensures Valid()
      ensures old(count) == 0 ==> r == None && emitted == old(emitted) && count == 0
      ensures old(count) > 0 ==>
                && r == Some(old(Live())[choice])
                && emitted == old(emitted) + [old(Live())[choice]]
                && Live() == Removed(old(Live()), choice)
    {
      if count == 0 {
        return None;
      }
      hide LiveOf, Removed, Identity;
      ghost var live := Live();
      StillAll(emitted, live, choice, multiset(Identity(N)));
      SparseStep(selected, count, choice);
      var value := choice;
      count := count - 1;
      var rval := if count in selected then selected[count] else count;
      if value in selected {
        value := selected[value];
        selected := selected[choice := rval];
      } else {
        selected := selected[value := rval];
      }
      emitted := emitted + [value];
      r := Some(value);
    }
  }

  lemma {:induction false} PermutationIsDistinct(s: seq<nat>, n: nat)
    requires multiset(s) == multiset(Identity(n))
    ensures |s| == n
    ensures forall i, j :: 0 <= i < j < |s| ==> s[i] != s[j]
    ensures forall v :: v in s <==> 0 <= v < n
  {
    assert |s| == |multiset(s)| == |multiset(Identity(n))| == n;
    forall v ensures multiset(Identity(n))[v] == (if 0 <= v < n then 1 else 0) {
      IdentityCount(n, v);
    }
    forall i, j | 0 <= i < j < |s| ensures s[i] != s[j] {
      TwiceCounts(s, i, j);
    }
    forall v ensures v in s <==> 0 <= v < n {
      assert v in s <==> v in multiset(s);
    }
  }

  lemma {:induction false} IdentityCount(n: nat, v: int)
    ensures multiset(Identity(n))[v] == (if 0 <= v < n then 1 else 0)
  {
    if n > 0 {
      IdentityCount(n - 1, v);
      assert Identity(n) == Identity(n - 1) + [n - 1];
    }
  }

  lemma {:induction false} TwiceCounts(s: seq<nat>, i: nat, j: nat)
    requires i < j < |s|
    ensures s[i] == s[j] ==> multiset(s)[s[i]] >= 2
  {
    assert s == s[..i] + [s[i]] + s[i + 1..j] + [s[j]] + s[j + 1..];
  }

  /** Whatever is drawn, N calls emit every value of 0..N-1 exactly once. */
  method ShuffleAll(n: nat, draws: nat -> nat) returns (out: seq<nat>)
    ensures multiset(out) == multiset(Identity(n))
    ensures |out| == n
    ensures forall i, j :: 0 <= i < j < |out| ==> out[i] != out[j]
    ensures forall v :: v in out <==> 0 <= v < n
  {
    var g := new ShuffleGenerator(n);
    out := [];
    while g.count > 0
      invariant g.Valid() && g.N == n && out == g.emitted
      invariant fresh(g)
      decreases g.count
    {
      var v := g.Next(draws(g.count) % g.count);
      out := out + [v.value];
    }
    assert g.Live() == [];
    PermutationIsDistinct(out, n);
  }
}
