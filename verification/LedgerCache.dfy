/**
 Effect of one transaction, and of a whole block, on the indexes that `rebuildCache` computes,
 and the exact inverse that `popTransaction` has to be.
 */
module LedgerCache {
  import opened LedgerTypes

  // ---- Per-amount vectors ----

  function Append<T>(m: map<uint64, seq<T>>, a: uint64, x: T): map<uint64, seq<T>> {
    m[a := (if a in m then m[a] else []) + [x]]
  }

  /** Drop the last element of the vector of `a`, and the vector itself when that empties it. */
  function DropLast<T>(m: map<uint64, seq<T>>, a: uint64): map<uint64, seq<T>>
    requires a in m && m[a] != []
  {
    if |m[a]| == 1 then m - {a} else m[a := m[a][..|m[a]| - 1]]
  }

  ghost predicate NoEmpty<T>(m: map<uint64, seq<T>>) {
    forall a :: a in m ==> m[a] != []
  }

  lemma {:induction false} DropLastUndoesAppend<T>(m: map<uint64, seq<T>>, a: uint64, x: T)
    requires NoEmpty(m)
    ensures DropLast(Append(m, a, x), a) == m
  {
    var m1 := Append(m, a, x);
    if a in m {
      assert m1[a][..|m1[a]| - 1] == m[a];
    } else {
      assert m1[a] == [x];
    }
  }

  function FlagAt(m: MsigMap, refs: set<(uint64, nat)>, used: bool, a: uint64, k: nat): MsigUsage
    requires a in m && k < |m[a]|
  {
    if (a, k) in refs then m[a][k].(isUsed := used) else m[a][k]
  }

  /** Set the usage flag of every referenced entry. */
  function WithFlags(m: MsigMap, refs: set<(uint64, nat)>, used: bool): (r: MsigMap)
    ensures r.Keys == m.Keys
    ensures forall a :: a in m ==> |r[a]| == |m[a]|
    ensures forall a, k :: a in m && 0 <= k < |m[a]| ==> r[a][k] == FlagAt(m, refs, used, a, k)
  {
    map a | a in m :: seq(|m[a]|, k requires 0 <= k < |m[a]| => FlagAt(m, refs, used, a, k))
  }

  ghost predicate InRange(m: MsigMap, refs: set<(uint64, nat)>) {
    forall r :: r in refs ==> r.0 in m && r.1 < |m[r.0]|
  }

  ghost predicate AllFlags(m: MsigMap, refs: set<(uint64, nat)>, used: bool)
    requires InRange(m, refs)
  {
    forall r :: r in refs ==> m[r.0][r.1].isUsed == used
  }

  /** Marking and unmarking is the identity exactly when nothing referenced was marked before. */
  lemma {:induction false} FlagsRoundTrip(m: MsigMap, refs: set<(uint64, nat)>)
    requires InRange(m, refs)
    ensures WithFlags(WithFlags(m, refs, true), refs, false) == m <==> AllFlags(m, refs, false)
  {
    var r := WithFlags(WithFlags(m, refs, true), refs, false);
    if AllFlags(m, refs, false) {
      forall a | a in m ensures r[a] == m[a] {
        forall k | 0 <= k < |m[a]| ensures r[a][k] == m[a][k] {
          if (a, k) in refs { assert !m[(a, k).0][(a, k).1].isUsed; }
        }
      }
      assert r == m;
    } else {
      var x :| x in refs && m[x.0][x.1].isUsed;
      assert !r[x.0][x.1].isUsed;
    }
  }

  // ---- Outputs ----

  function AddOutput(t: OutputTables, idx: TransactionIndex, o: nat, out: Output): OutputTables {
    match out.target
    case KeyOutput(_) => t.(keys := Append(t.keys, out.amount, OutputRef(idx, o)))
    case MultisignatureOutput(_, _) => t.(msigs := Append(t.msigs, out.amount, MsigUsage(idx, o, false)))
  }

  function AddOutputs(t: OutputTables, idx: TransactionIndex, outs: seq<Output>): OutputTables {
    if outs == [] then t
    else AddOutput(AddOutputs(t, idx, outs[..|outs| - 1]), idx, |outs| - 1, outs[|outs| - 1])
  }

  /** Number of outputs of the kind and amount of `out` already stored: the next global index. */
  function NextIndex(t: OutputTables, out: Output): nat {
    match out.target
    case KeyOutput(_) => if out.amount in t.keys then |t.keys[out.amount]| else 0
    case MultisignatureOutput(_, _) => if out.amount in t.msigs then |t.msigs[out.amount]| else 0
  }

  function GlobalIndexes(t: OutputTables, idx: TransactionIndex, outs: seq<Output>): (r: seq<nat>)
    ensures |r| == |outs|
  {
    if outs == [] then []
    else
      var before := outs[..|outs| - 1];
      GlobalIndexes(t, idx, before) + [NextIndex(AddOutputs(t, idx, before), outs[|outs| - 1])]
  }

  /** One turn of the output loop of `popTransaction`; `false` is a "consistency broken" branch. */
  function PopOutput(t: OutputTables, idx: TransactionIndex, o: nat, out: Output): (OutputTables, bool) {
    match out.target
    case KeyOutput(_) =>
      if out.amount !in t.keys || t.keys[out.amount] == [] then (t, false)
      else
        var last := t.keys[out.amount][|t.keys[out.amount]| - 1];
        if last.txIndex != idx || last.output != o then (t, false)
        else (t.(keys := DropLast(t.keys, out.amount)), true)
    case MultisignatureOutput(_, _) =>
      if out.amount !in t.msigs || t.msigs[out.amount] == [] then (t, false)
      else
        var last := t.msigs[out.amount][|t.msigs[out.amount]| - 1];
        if last.isUsed || last.txIndex != idx || last.output != o then (t, false)
        else (t.(msigs := DropLast(t.msigs, out.amount)), true)
  }

  /** The output loop of `popTransaction`, last output first. */
  function PopOutputs(t: OutputTables, idx: TransactionIndex, outs: seq<Output>): (OutputTables, bool)
    decreases |outs|
  {
    if outs == [] then (t, true)
    else
      var (t1, ok1) := PopOutput(t, idx, |outs| - 1, outs[|outs| - 1]);
      var (t2, ok2) := PopOutputs(t1, idx, outs[..|outs| - 1]);
      (t2, ok1 && ok2)
  }

  ghost predicate NoEmptyTables(t: OutputTables) {
    NoEmpty(t.keys) && NoEmpty(t.msigs)
  }

  lemma {:induction false} AddOutputsKeepsNoEmpty(t: OutputTables, idx: TransactionIndex, outs: seq<Output>)
    requires NoEmptyTables(t)
    ensures NoEmptyTables(AddOutputs(t, idx, outs))
  {
    if outs != [] {
      AddOutputsKeepsNoEmpty(t, idx, outs[..|outs| - 1]);
    }
  }

  lemma {:induction false} PopOutputsUndoesAdd(t: OutputTables, idx: TransactionIndex, outs: seq<Output>)
    requires NoEmptyTables(t)
    ensures PopOutputs(AddOutputs(t, idx, outs), idx, outs) == (t, true)
  {
    if outs != [] {
      var n := |outs| - 1;
      var before := AddOutputs(t, idx, outs[..n]);
      AddOutputsKeepsNoEmpty(t, idx, outs[..n]);
      match outs[n].target {
        case KeyOutput(_) =>
          DropLastUndoesAppend(before.keys, outs[n].amount, OutputRef(idx, n));
        case MultisignatureOutput(_, _) =>
          DropLastUndoesAppend(before.msigs, outs[n].amount, MsigUsage(idx, n, false));
      }
      PopOutputsUndoesAdd(t, idx, outs[..n]);
    }
  }

  lemma {:induction false} AppendUndoesDropLast<T>(m: map<uint64, seq<T>>, a: uint64, x: T)
    requires NoEmpty(m) && a in m && m[a][|m[a]| - 1] == x
    ensures Append(DropLast(m, a), a, x) == m && NoEmpty(DropLast(m, a))
  {
    assert m[a] == m[a][..|m[a]| - 1] + [x];
    if |m[a]| == 1 {
      assert m[a] == [x];
    }
  }

  /** What one turn takes away without a "consistency broken" branch, appending the output gives back. */
  lemma {:induction false} AddOutputUndoesPop(t: OutputTables, idx: TransactionIndex, o: nat, out: Output)
    requires NoEmptyTables(t) && PopOutput(t, idx, o, out).1
    ensures NoEmptyTables(PopOutput(t, idx, o, out).0) && AddOutput(PopOutput(t, idx, o, out).0, idx, o, out) == t
  {
    match out.target {
      case KeyOutput(_) =>
        AppendUndoesDropLast(t.keys, out.amount, OutputRef(idx, o));
      case MultisignatureOutput(_, _) =>
        AppendUndoesDropLast(t.msigs, out.amount, MsigUsage(idx, o, false));
    }
    hide DropLast, Append, NoEmpty;
  }

  lemma {:induction false} AddUndoesPopOutputs(t: OutputTables, idx: TransactionIndex, outs: seq<Output>)
    requires NoEmptyTables(t) && PopOutputs(t, idx, outs).1
    ensures NoEmptyTables(PopOutputs(t, idx, outs).0) && AddOutputs(PopOutputs(t, idx, outs).0, idx, outs) == t
    decreases |outs|
  {
    hide PopOutput, AddOutput, NoEmptyTables;
    if outs != [] {
      var n := |outs| - 1;
      AddOutputUndoesPop(t, idx, n, outs[n]);
      AddUndoesPopOutputs(PopOutput(t, idx, n, outs[n]).0, idx, outs[..n]);
    }
  }

  /** Adding outputs only extends vectors. */
  lemma {:induction false} AddOutputsExtends(t: OutputTables, idx: TransactionIndex, outs: seq<Output>)
    ensures var r := AddOutputs(t, idx, outs);
            && (forall a :: a in t.keys ==> a in r.keys && t.keys[a] <= r.keys[a])
            && (forall a :: a in t.msigs ==> a in r.msigs && t.msigs[a] <= r.msigs[a])
  {
    if outs != [] {
      AddOutputsExtends(t, idx, outs[..|outs| - 1]);
    }
  }

  // ---- One transaction ----

  function Insert(m: map<Hash, TransactionIndex>, h: Hash, idx: TransactionIndex): map<Hash, TransactionIndex> {
    if h in m then m else m[h := idx]
  }

  function Marked(t: OutputTables, inputs: seq<Input>): OutputTables {
    t.(msigs := WithFlags(t.msigs, MsigRefs(inputs), true))
  }

  /** What `rebuildCache` does for one stored transaction. */
  function AddTx(c: Cache, idx: TransactionIndex, tx: Transaction): Cache {
    Cache(c.blockIds,
          Insert(c.txMap, TxHash(tx), idx),
          c.spent + KeyImages(tx.inputs),
          AddOutputs(Marked(c.tables, tx.inputs), idx, tx.outputs))
  }

  /** The multisignature inputs name stored outputs that nothing has consumed yet. */
  ghost predicate MsigsSpendable(c: Cache, inputs: seq<Input>) {
    InRange(c.tables.msigs, MsigRefs(inputs)) && AllFlags(c.tables.msigs, MsigRefs(inputs), false)
  }

  /** `pushTransaction` accepts `tx`: it is new, its key images are distinct and unspent, and its references exist. */
  ghost predicate Pushable(c: Cache, tx: Transaction) {
    && TxHash(tx) !in c.txMap
    && DistinctImages(tx.inputs) && KeyImages(tx.inputs) !! c.spent
    && DistinctMsigs(tx.inputs) && InRange(c.tables.msigs, MsigRefs(tx.inputs))
  }

  /** The references that `popTransaction` dereferences without a check. */
  ghost predicate PopDefined(c: Cache, tx: Transaction) {
    && TxHash(tx) in c.txMap
    && InRange(PopOutputs(c.tables, c.txMap[TxHash(tx)], tx.outputs).0.msigs, MsigRefs(tx.inputs))
  }

  /** `popTransaction`: the new indexes, and whether no "consistency broken" branch was taken. */
  ghost function PopTx(c: Cache, tx: Transaction): (Cache, bool)
    requires PopDefined(c, tx)
  {
    var refs := MsigRefs(tx.inputs);
    var (t, ok) := PopOutputs(c.tables, c.txMap[TxHash(tx)], tx.outputs);
    (Cache(c.blockIds,
           c.txMap - {TxHash(tx)},
           c.spent - KeyImages(tx.inputs),
           t.(msigs := WithFlags(t.msigs, refs, false))),
     && ok
     && DistinctImages(tx.inputs) && KeyImages(tx.inputs) <= c.spent
     && DistinctMsigs(tx.inputs) && AllFlags(t.msigs, refs, true))
  }

  lemma {:induction false} PopAfterAddDefined(c: Cache, idx: TransactionIndex, tx: Transaction)
    requires Pushable(c, tx) && NoEmptyTables(c.tables)
    ensures PopDefined(AddTx(c, idx, tx), tx)
    ensures PopOutputs(AddTx(c, idx, tx).tables, idx, tx.outputs) == (Marked(c.tables, tx.inputs), true)
  {
    PopOutputsUndoesAdd(Marked(c.tables, tx.inputs), idx, tx.outputs);
  }

  /**
   Popping a transaction never reports broken consistency after it was pushed, and restores every
   index exactly when the transaction's multisignature inputs were unused before the push.
   */
  lemma {:induction false} PopUndoesAdd(c: Cache, idx: TransactionIndex, tx: Transaction)
    requires Pushable(c, tx) && NoEmptyTables(c.tables)
    ensures PopDefined(AddTx(c, idx, tx), tx)
    ensures PopTx(AddTx(c, idx, tx), tx).1
    ensures PopTx(AddTx(c, idx, tx), tx).0 == c <==> MsigsSpendable(c, tx.inputs)
  {
    PopAfterAddDefined(c, idx, tx);
    FlagsRoundTrip(c.tables.msigs, MsigRefs(tx.inputs));
    var back := PopTx(AddTx(c, idx, tx), tx).0;
    assert back.txMap == c.txMap;
    assert back.spent == c.spent;
    assert back.tables.keys == c.tables.keys;
  }

  lemma {:induction false} FlagsBackAndForth(m: MsigMap, refs: set<(uint64, nat)>)
    requires InRange(m, refs) && AllFlags(m, refs, true)
    ensures var r := WithFlags(m, refs, false);
            && InRange(r, refs) && AllFlags(r, refs, false) && WithFlags(r, refs, true) == m
            && (NoEmpty(m) ==> NoEmpty(r))
  {
    var r := WithFlags(m, refs, false);
    var s := WithFlags(r, refs, true);
    forall a | a in m ensures s[a] == m[a] {
      forall k | 0 <= k < |m[a]| ensures s[a][k] == m[a][k] {
        if (a, k) in refs {
          assert m[(a, k).0][(a, k).1].isUsed;
        }
      }
    }
  }

  /**
   `popTransaction` takes no "consistency broken" branch and leaves `before` exactly if pushing the transaction at its
   recorded position onto `before`, where nothing that it consumes is used, gives the indexes it was called on.
   */
  lemma {:induction false} PopExactly(c: Cache, tx: Transaction, before: Cache)
    requires PopDefined(c, tx) && NoEmptyTables(c.tables)
    ensures PopTx(c, tx) == (before, true) <==>
              && Pushable(before, tx) && MsigsSpendable(before, tx.inputs) && NoEmptyTables(before.tables)
              && AddTx(before, c.txMap[TxHash(tx)], tx) == c
  {
    if PopTx(c, tx) == (before, true) {
      CleanPopIsUndone(c, tx);
    }
    hide PopTx, AddTx;
    if Pushable(before, tx) && NoEmptyTables(before.tables) && MsigsSpendable(before, tx.inputs)
       && AddTx(before, c.txMap[TxHash(tx)], tx) == c {
      PopUndoesAdd(before, c.txMap[TxHash(tx)], tx);
    }
  }

  lemma {:induction false} CleanPopIsUndone(c: Cache, tx: Transaction)
    requires PopDefined(c, tx) && NoEmptyTables(c.tables) && PopTx(c, tx).1
    ensures var r := PopTx(c, tx).0;
            && Pushable(r, tx) && MsigsSpendable(r, tx.inputs) && NoEmptyTables(r.tables)
            && AddTx(r, c.txMap[TxHash(tx)], tx) == c
  {
    var idx, refs := c.txMap[TxHash(tx)], MsigRefs(tx.inputs);
    var t := PopOutputs(c.tables, idx, tx.outputs).0;
    AddUndoesPopOutputs(c.tables, idx, tx.outputs);
    FlagsBackAndForth(t.msigs, refs);
    hide PopOutputs, AddOutputs, WithFlags;
    var r := PopTx(c, tx).0;
    assert Insert(r.txMap, TxHash(tx), idx) == c.txMap;
    assert r.spent + KeyImages(tx.inputs) == c.spent;
    assert Marked(r.tables, tx.inputs) == t;
  }

  // ---- A block's transactions ----

  function AddTxs(c: Cache, height: nat, txs: seq<Transaction>): Cache {
    if txs == [] then c
    else
      var n := |txs| - 1;
      AddTx(AddTxs(c, height, txs[..n]), TransactionIndex(height, n), txs[n])
  }

  lemma {:induction false} AddTxsHashes(c: Cache, height: nat, txs: seq<Transaction>)
    ensures forall h :: h in AddTxs(c, height, txs).txMap <==> h in c.txMap || (h.TxHash? && h.tx in txs)
  {
    if txs != [] {
      var n := |txs| - 1;
      AddTxsHashes(c, height, txs[..n]);
      assert txs == txs[..n] + [txs[n]];
    }
  }

  /** `pushTransaction` accepts transaction `n` on what the ones before it left. */
  ghost predicate PushableAt(c: Cache, height: nat, txs: seq<Transaction>, n: nat)
    requires n < |txs|
  {
    Pushable(AddTxs(c, height, txs[..n]), txs[n])
  }

  ghost predicate AllPushable(c: Cache, height: nat, txs: seq<Transaction>) {
    forall n :: 0 <= n < |txs| ==> PushableAt(c, height, txs, n)
  }

  /** `popTransactions`: last transaction first. */
  ghost predicate PopTxsDefined(c: Cache, txs: seq<Transaction>)
    decreases |txs|
  {
    txs == [] ||
    var n := |txs| - 1;
    PopDefined(c, txs[n]) && PopTxsDefined(PopTx(c, txs[n]).0, txs[..n])
  }

  ghost function PopTxs(c: Cache, txs: seq<Transaction>): (Cache, bool)
    requires PopTxsDefined(c, txs)
    decreases |txs|
  {
    if txs == [] then (c, true)
    else
      var n := |txs| - 1;
      var (c1, ok1) := PopTx(c, txs[n]);
      var (c2, ok2) := PopTxs(c1, txs[..n]);
      (c2, ok1 && ok2)
  }

  lemma {:induction false} PopTxsStep(c: Cache, txs: seq<Transaction>, n: nat)
    requires 0 < n <= |txs| && PopTxsDefined(c, txs[..n])
    ensures PopDefined(c, txs[n - 1])
    ensures PopTxsDefined(PopTx(c, txs[n - 1]).0, txs[..n - 1])
    ensures var (c1, ok1) := PopTx(c, txs[n - 1]);
            PopTxs(c, txs[..n]) == (PopTxs(c1, txs[..n - 1]).0, ok1 && PopTxs(c1, txs[..n - 1]).1)
  {
    hide PopTx;
    hide PopDefined;
    assert txs[..n][..n - 1] == txs[..n - 1];
  }

  lemma {:induction false} AddTxsKeepsNoEmpty(c: Cache, height: nat, txs: seq<Transaction>)
    requires NoEmptyTables(c.tables)
    ensures NoEmptyTables(AddTxs(c, height, txs).tables)
  {
    if txs != [] {
      var n := |txs| - 1;
      AddTxsKeepsNoEmpty(c, height, txs[..n]);
      var before := AddTxs(c, height, txs[..n]);
      AddOutputsKeepsNoEmpty(Marked(before.tables, txs[n].inputs), TransactionIndex(height, n), txs[n].outputs);
    }
  }

  lemma {:induction false} PushableAtPrefix(c: Cache, height: nat, txs: seq<Transaction>, k: nat, n: nat)
    requires n < k <= |txs|
    ensures PushableAt(c, height, txs[..k], n) == PushableAt(c, height, txs, n)
  {
    assert txs[..k][..n] == txs[..n];
  }

  lemma {:induction false} AllPushablePrefix(c: Cache, height: nat, txs: seq<Transaction>, k: nat)
    requires AllPushable(c, height, txs) && k <= |txs|
    ensures AllPushable(c, height, txs[..k])
  {
    forall n | 0 <= n < k ensures PushableAt(c, height, txs[..k], n) {
      PushableAtPrefix(c, height, txs, k, n);
    }
  }

  lemma {:induction false} AllPushableExtend(c: Cache, height: nat, txs: seq<Transaction>, n: nat)
    requires n < |txs| && AllPushable(c, height, txs[..n])
    requires Pushable(AddTxs(c, height, txs[..n]), txs[n])
    ensures AllPushable(c, height, txs[..n + 1])
  {
    assert PushableAt(c, height, txs, n);
    var upto := txs[..n + 1];
    forall k | 0 <= k <= n ensures PushableAt(c, height, upto, k) {
      PushableAtPrefix(c, height, txs, n + 1, k);
      if k < n { PushableAtPrefix(c, height, txs, n, k); }
    }
  }

  // ---- The block list ----

  function PushId(ids: seq<Hash>, id: Hash): seq<Hash> {
    if id in ids then ids else ids + [id]
  }

  function AddBlock(c: Cache, height: nat, entry: BlockEntry): Cache {
    var c1 := AddTxs(c, height, Txs(entry.transactions));
    c1.(blockIds := PushId(c.blockIds, BlockHash(entry.bl)))
  }

  /** `rebuildCache`: the indexes as a function of the block list alone. */
  function Rebuild(blocks: seq<BlockEntry>): Cache {
    if blocks == [] then EMPTY_CACHE
    else AddBlock(Rebuild(blocks[..|blocks| - 1]), |blocks| - 1, blocks[|blocks| - 1])
  }

  lemma {:induction false} AddTxsKeepsBlockIds(c: Cache, height: nat, txs: seq<Transaction>)
    ensures AddTxs(c, height, txs).blockIds == c.blockIds
  {
    if txs != [] { AddTxsKeepsBlockIds(c, height, txs[..|txs| - 1]); }
  }

  lemma {:induction false} RebuildNoEmpty(blocks: seq<BlockEntry>)
    ensures NoEmptyTables(Rebuild(blocks).tables)
  {
    if blocks != [] {
      var n := |blocks| - 1;
      RebuildNoEmpty(blocks[..n]);
      AddTxsKeepsNoEmpty(Rebuild(blocks[..n]), n, Txs(blocks[n].transactions));
    }
  }

  /** Popping transactions does not depend on the block index. */
  lemma {:induction false} PopTxIds(c: Cache, ids: seq<Hash>, tx: Transaction)
    requires PopDefined(c, tx)
    ensures PopDefined(c.(blockIds := ids), tx)
    ensures PopTx(c.(blockIds := ids), tx) == (PopTx(c, tx).0.(blockIds := ids), PopTx(c, tx).1)
  {
  }

  lemma {:induction false} PopTxsIds(c: Cache, ids: seq<Hash>, txs: seq<Transaction>)
    requires PopTxsDefined(c, txs)
    ensures PopTxsDefined(c.(blockIds := ids), txs)
    ensures PopTxs(c.(blockIds := ids), txs) == (PopTxs(c, txs).0.(blockIds := ids), PopTxs(c, txs).1)
    decreases |txs|
  {
    hide PopTx, PopDefined;
    if txs != [] {
      var n := |txs| - 1;
      PopTxIds(c, ids, txs[n]);
      PopTxsIds(PopTx(c, txs[n]).0, ids, txs[..n]);
    }
  }

  // ---- What rebuilding dereferences ----

  /** Marking transaction `n` while rebuilding touches only outputs that exist by then. */
  ghost predicate MarkableAt(c: Cache, height: nat, txs: seq<Transaction>, n: nat)
    requires n < |txs|
  {
    InRange(AddTxs(c, height, txs[..n]).tables.msigs, MsigRefs(txs[n].inputs))
  }

  ghost predicate BlockMarkable(blocks: seq<BlockEntry>, j: nat)
    requires j < |blocks|
  {
    var txs := Txs(blocks[j].transactions);
    forall n :: 0 <= n < |txs| ==> MarkableAt(Rebuild(blocks[..j]), j, txs, n)
  }

  ghost predicate RebuildDefined(blocks: seq<BlockEntry>) {
    forall j :: 0 <= j < |blocks| ==> BlockMarkable(blocks, j)
  }
}
