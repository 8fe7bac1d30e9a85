/** What lists of transactions and whole chains consume, and what the usage flags say about it. */
module LedgerInputs {
  import opened LedgerTypes
  import opened LedgerCache

  // ---- Consumed outputs ----

  function TxsInputs(txs: seq<Transaction>): seq<Input> {
    if txs == [] then [] else TxsInputs(txs[..|txs| - 1]) + txs[|txs| - 1].inputs
  }

  /** All inputs of all transactions of the chain, in chain order. */
  function ChainInputs(blocks: seq<BlockEntry>): seq<Input> {
    if blocks == [] then []
    else ChainInputs(blocks[..|blocks| - 1]) + TxsInputs(Txs(blocks[|blocks| - 1].transactions))
  }

  /** The multisignature outputs that the blocks consume. */
  function Consumed(blocks: seq<BlockEntry>): set<(uint64, nat)> {
    MsigRefs(ChainInputs(blocks))
  }

  /** The blocks from `k` on consume nothing that the blocks below consumed: taking them away can be undone exactly. */
  ghost predicate NothingBack(blocks: seq<BlockEntry>, k: nat)
    requires k <= |blocks|
  {
    Consumed(blocks[..k]) !! Consumed(blocks[k..])
  }

  lemma {:induction false} ConcatConsumes(ins: seq<Input>, more: seq<Input>)
    ensures KeyImages(ins + more) == KeyImages(ins) + KeyImages(more)
    ensures MsigRefs(ins + more) == MsigRefs(ins) + MsigRefs(more)
  {
    var all := ins + more;
    forall x | x in KeyImages(ins) + KeyImages(more) ensures x in KeyImages(all) {
      if x in KeyImages(ins) {
        var i :| 0 <= i < |ins| && ins[i].KeyInput? && ins[i].keyImage == x;
        assert all[i] == ins[i];
      } else {
        var i :| 0 <= i < |more| && more[i].KeyInput? && more[i].keyImage == x;
        assert all[|ins| + i] == more[i];
      }
    }
    forall r | r in MsigRefs(ins) + MsigRefs(more) ensures r in MsigRefs(all) {
      if r in MsigRefs(ins) {
        var i :| 0 <= i < |ins| && ins[i].MultisignatureInput? && r == (ins[i].amount, ins[i].outputIndex);
        assert all[i] == ins[i];
      } else {
        var i :| 0 <= i < |more| && more[i].MultisignatureInput? && r == (more[i].amount, more[i].outputIndex);
        assert all[|ins| + i] == more[i];
      }
    }
  }

  lemma {:induction false} MsigsConcat(ins: seq<Input>, more: seq<Input>)
    ensures DistinctMsigs(ins + more) <==> DistinctMsigs(ins) && DistinctMsigs(more) && MsigRefs(ins) !! MsigRefs(more)
  {
    var all := ins + more;
    assert forall i :: 0 <= i < |ins| ==> all[i] == ins[i];
    assert forall i :: 0 <= i < |more| ==> all[|ins| + i] == more[i];
    if DistinctMsigs(ins) && DistinctMsigs(more) && MsigRefs(ins) !! MsigRefs(more) {
      MsigsTogether(ins, more);
    }
    if DistinctMsigs(all) {
      forall i, j | 0 <= i < |ins| && 0 <= j < |more| && ins[i].MultisignatureInput? && more[j].MultisignatureInput?
        ensures (ins[i].amount, ins[i].outputIndex) != (more[j].amount, more[j].outputIndex)
      {
        assert all[i] == ins[i] && all[|ins| + j] == more[j];
      }
    }
  }

  lemma {:induction false} MsigsTogether(ins: seq<Input>, more: seq<Input>)
    requires DistinctMsigs(ins) && DistinctMsigs(more) && MsigRefs(ins) !! MsigRefs(more)
    ensures DistinctMsigs(ins + more)
  {
    var all := ins + more;
    forall i, j | 0 <= i < j < |all| && all[i].MultisignatureInput? && all[j].MultisignatureInput?
      ensures (all[i].amount, all[i].outputIndex) != (all[j].amount, all[j].outputIndex)
    {
      if i < |ins| <= j {
        assert (all[i].amount, all[i].outputIndex) in MsigRefs(ins);
        assert all[j] == more[j - |ins|] && (all[j].amount, all[j].outputIndex) in MsigRefs(more);
      }
    }
  }

  lemma {:induction false} NoConsumption(inputs: seq<Input>)
    ensures KeyImages(inputs) == {} ==> DistinctImages(inputs)
    ensures MsigRefs(inputs) == {} ==> DistinctMsigs(inputs)
  {
    forall i | 0 <= i < |inputs| && inputs[i].KeyInput? ensures inputs[i].keyImage in KeyImages(inputs) {
    }
    forall i | 0 <= i < |inputs| && inputs[i].MultisignatureInput?
      ensures (inputs[i].amount, inputs[i].outputIndex) in MsigRefs(inputs)
    {
    }
  }

  /** A chain consumes what its lower and what its upper part consume. */
  lemma {:induction false} ConsumedSplit(blocks: seq<BlockEntry>, k: nat)
    requires k <= |blocks|
    ensures Consumed(blocks) == Consumed(blocks[..k]) + Consumed(blocks[k..])
    decreases |blocks|
  {
    hide Consumed;
    if k == |blocks| {
      assert blocks[..k] == blocks;
      NothingConsumed(blocks);
    } else {
      var n := |blocks| - 1;
      ConsumedSplit(blocks[..n], k);
      assert blocks[..n][..k] == blocks[..k] && blocks[..n][k..] == blocks[k..][..n - k];
      ConsumedStep(blocks);
      ConsumedStep(blocks[k..]);
    }
  }

  lemma {:induction false} ConsumedStep(blocks: seq<BlockEntry>)
    requires blocks != []
    ensures var n := |blocks| - 1;
            Consumed(blocks) == Consumed(blocks[..n]) + MsigRefs(TxsInputs(Txs(blocks[n].transactions)))
  {
    hide MsigRefs, TxsInputs;
    var n := |blocks| - 1;
    ConcatConsumes(ChainInputs(blocks[..n]), TxsInputs(Txs(blocks[n].transactions)));
  }

  lemma {:induction false} ConsumedOne(blocks: seq<BlockEntry>, n: nat)
    requires n < |blocks|
    ensures Consumed(blocks[n..]) == MsigRefs(TxsInputs(Txs(blocks[n].transactions))) + Consumed(blocks[n + 1..])
  {
    hide Consumed, MsigRefs, TxsInputs;
    var up := blocks[n..];
    ConsumedSplit(up, 1);
    assert up[..1] == [blocks[n]] && up[1..] == blocks[n + 1..];
    ConsumedStep(up[..1]);
    NothingConsumed(up);
    assert up[..1][..0] == [];
  }

  lemma {:induction false} NothingConsumed(blocks: seq<BlockEntry>)
    ensures Consumed([]) == {} && Consumed(blocks[|blocks|..]) == {}
  {
    assert blocks[|blocks|..] == [];
  }

  lemma {:induction false} RemovedTogether(gone: set<(uint64, nat)>, refs: set<(uint64, nat)>)
    ensures gone + refs == refs + gone
  {
  }

  /** What the last block consumes. */
  lemma {:induction false} ConsumedLast(blocks: seq<BlockEntry>)
    requires blocks != []
    ensures var n := |blocks| - 1;
            {} + MsigRefs(TxsInputs(Txs(blocks[n].transactions))) == Consumed(blocks[n..])
  {
    ConsumedOne(blocks, |blocks| - 1);
    NothingConsumed(blocks);
  }

  /** The usage flags are set for exactly the outputs that `ins` consumes. */
  ghost predicate FlagsRecord(c: Cache, ins: seq<Input>) {
    && InRange(c.tables.msigs, MsigRefs(ins))
    && forall a, k :: a in c.tables.msigs && 0 <= k < |c.tables.msigs[a]| ==>
         (c.tables.msigs[a][k].isUsed <==> (a, k) in MsigRefs(ins))
  }

  ghost predicate UnusedBeyond(m: MsigMap, base: MsigMap) {
    forall a: uint64, k: int :: a in m && 0 <= k < |m[a]| && !(a in base && k < |base[a]|) ==> !m[a][k].isUsed
  }

  /** Added outputs start unused. */
  lemma {:induction false} AddedOutputsUnused(t: OutputTables, idx: TransactionIndex, outs: seq<Output>)
    ensures UnusedBeyond(AddOutputs(t, idx, outs).msigs, t.msigs)
  {
    if outs != [] {
      var n := |outs| - 1;
      AddedOutputsUnused(t, idx, outs[..n]);
      AddOutputsExtends(t, idx, outs[..n]);
      var before: MsigMap, r: MsigMap := AddOutputs(t, idx, outs[..n]).msigs, AddOutputs(t, idx, outs).msigs;
      forall a: uint64, k: int | a in r && 0 <= k < |r[a]| && !(a in t.msigs && k < |t.msigs[a]|)
        ensures !r[a][k].isUsed
      {
        if a in before && k < |before[a]| {
          assert !before[a][k].isUsed;
          assert r[a][k] == before[a][k];
        } else {
          assert r == Append(before, outs[n].amount, MsigUsage(idx, n, false));
          assert r[a][k] == MsigUsage(idx, n, false);
        }
      }
    }
  }

  // ---- What the usage flags record ----

  lemma {:induction false} FlagsStep(c: Cache, idx: TransactionIndex, tx: Transaction, ins: seq<Input>)
    requires FlagsRecord(c, ins) && InRange(c.tables.msigs, MsigRefs(tx.inputs))
    ensures FlagsRecord(AddTx(c, idx, tx), ins + tx.inputs)
  {
    ConcatConsumes(ins, tx.inputs);
    var t := Marked(c.tables, tx.inputs);
    AddOutputsExtends(t, idx, tx.outputs);
    AddedOutputsUnused(t, idx, tx.outputs);
    var m: MsigMap := AddTx(c, idx, tx).tables.msigs;
    var all := MsigRefs(ins) + MsigRefs(tx.inputs);
    forall a: uint64, k | a in m && 0 <= k < |m[a]| ensures m[a][k].isUsed <==> (a, k) in all {
      if a in c.tables.msigs && k < |c.tables.msigs[a]| {
        assert m[a][k] == t.msigs[a][k];
      } else {
        assert !m[a][k].isUsed;
        assert forall r :: r in all ==> r.0 in c.tables.msigs && r.1 < |c.tables.msigs[r.0]|;
        assert (a, k) !in all by { assert !((a, k).0 in c.tables.msigs && (a, k).1 < |c.tables.msigs[(a, k).0]|); }
      }
    }
    forall r | r in all ensures r.0 in m && r.1 < |m[r.0]| {
      assert r.0 in t.msigs;
    }
  }

  /** Transaction `n` consumes stored outputs that are unused at its turn. */
  ghost predicate FreshAt(c: Cache, height: nat, txs: seq<Transaction>, n: nat)
    requires n < |txs|
  {
    MsigsSpendable(AddTxs(c, height, txs[..n]), txs[n].inputs)
  }

  ghost predicate AllFresh(c: Cache, height: nat, txs: seq<Transaction>) {
    forall n :: 0 <= n < |txs| ==> FreshAt(c, height, txs, n)
  }

  ghost predicate AllMarkable(c: Cache, height: nat, txs: seq<Transaction>) {
    forall n :: 0 <= n < |txs| ==> MarkableAt(c, height, txs, n)
  }

  lemma {:induction false} FreshPrefix(c: Cache, height: nat, txs: seq<Transaction>)
    requires txs != []
    ensures var n := |txs| - 1;
            && (AllMarkable(c, height, txs) ==> AllMarkable(c, height, txs[..n]))
            && (AllFresh(c, height, txs) <==> AllFresh(c, height, txs[..n]) && FreshAt(c, height, txs, n))
  {
    hide MsigsSpendable, AddTxs;
    var n := |txs| - 1;
    forall k | 0 <= k < n
      ensures FreshAt(c, height, txs[..n], k) == FreshAt(c, height, txs, k)
      ensures MarkableAt(c, height, txs[..n], k) == MarkableAt(c, height, txs, k)
    {
      assert txs[..n][..k] == txs[..k];
    }
    if AllMarkable(c, height, txs) {
      forall k | 0 <= k < n ensures MarkableAt(c, height, txs[..n], k) {
        assert MarkableAt(c, height, txs, k);
      }
    }
    if AllFresh(c, height, txs[..n]) && FreshAt(c, height, txs, n) {
      forall k | 0 <= k < |txs| ensures FreshAt(c, height, txs, k) {
        assert k < n ==> FreshAt(c, height, txs[..n], k);
      }
    }
    if AllFresh(c, height, txs) {
      forall k | 0 <= k < n ensures FreshAt(c, height, txs[..n], k) {
        assert FreshAt(c, height, txs, k);
      }
    }
  }

  /** Against exact flags, unused means not consumed before. */
  lemma {:induction false} UnusedIsNew(c: Cache, tx: Transaction, ins: seq<Input>)
    requires FlagsRecord(c, ins) && InRange(c.tables.msigs, MsigRefs(tx.inputs))
    ensures MsigsSpendable(c, tx.inputs) <==> MsigRefs(ins) !! MsigRefs(tx.inputs)
  {
    if MsigsSpendable(c, tx.inputs) {
      forall r | r in MsigRefs(ins) ensures r !in MsigRefs(tx.inputs) {
        assert c.tables.msigs[r.0][r.1].isUsed;
      }
    } else {
      var r :| r in MsigRefs(tx.inputs) && c.tables.msigs[r.0][r.1].isUsed;
      assert (r.0, r.1) in MsigRefs(ins);
    }
  }

  /**
   A list of transactions consumes only unused outputs, each at its turn, exactly when it consumes nothing twice
   and nothing that was consumed before.
   */
  lemma {:induction false} FreshIffDistinct(c: Cache, height: nat, txs: seq<Transaction>, ins: seq<Input>)
    requires FlagsRecord(c, ins) && AllMarkable(c, height, txs)
    requires forall n :: 0 <= n < |txs| ==> DistinctMsigs(txs[n].inputs)
    ensures FlagsRecord(AddTxs(c, height, txs), ins + TxsInputs(txs))
    ensures AllFresh(c, height, txs) <==> DistinctMsigs(TxsInputs(txs)) && MsigRefs(ins) !! MsigRefs(TxsInputs(txs))
  {
    hide AddTx, FlagsRecord, MsigsSpendable, DistinctMsigs;
    if txs == [] {
      assert ins + TxsInputs(txs) == ins;
      NoConsumption([]);
    } else {
      var n := |txs| - 1;
      var before, done, tx := AddTxs(c, height, txs[..n]), TxsInputs(txs[..n]), txs[n];
      FreshPrefix(c, height, txs);
      FreshIffDistinct(c, height, txs[..n], ins);
      assert MarkableAt(c, height, txs, n);
      FlagsStep(before, TransactionIndex(height, n), tx, ins + done);
      assert ins + done + tx.inputs == ins + TxsInputs(txs);
      UnusedIsNew(before, tx, ins + done);
      MsigsConcat(done, tx.inputs);
      ConcatConsumes(ins, done);
      ConcatConsumes(done, tx.inputs);
    }
  }

  lemma {:induction false} DefinedPrefix(blocks: seq<BlockEntry>, k: nat)
    requires RebuildDefined(blocks) && k <= |blocks|
    ensures RebuildDefined(blocks[..k])
  {
    hide MarkableAt, Rebuild;
    forall j | 0 <= j < k ensures BlockMarkable(blocks[..k], j) {
      assert blocks[..k][..j] == blocks[..j];
      assert BlockMarkable(blocks, j);
    }
  }

  /** In every chain that can be rebuilt at all, the usage flags are set for exactly the outputs it consumes. */
  lemma {:induction false} FlagsAreConsumed(blocks: seq<BlockEntry>)
    requires RebuildDefined(blocks)
    ensures FlagsRecord(Rebuild(blocks), ChainInputs(blocks))
  {
    if blocks != [] {
      hide AddTxs, FlagsRecord;
      var n := |blocks| - 1;
      DefinedPrefix(blocks, n);
      FlagsAreConsumed(blocks[..n]);
      BlockFlags(blocks);
    }
  }

  lemma {:induction false} BlockFlags(blocks: seq<BlockEntry>)
    requires blocks != [] && RebuildDefined(blocks)
    requires FlagsRecord(Rebuild(blocks[..|blocks| - 1]), ChainInputs(blocks[..|blocks| - 1]))
    ensures FlagsRecord(Rebuild(blocks), ChainInputs(blocks))
  {
    hide AddTxs, FlagsRecord, MarkableAt;
    var n := |blocks| - 1;
    var txs := Txs(blocks[n].transactions);
    assert BlockMarkable(blocks, n);
    TxsFlags(Rebuild(blocks[..n]), n, txs, ChainInputs(blocks[..n]));
    FlagsIgnoreIds(AddTxs(Rebuild(blocks[..n]), n, txs), Rebuild(blocks).blockIds, ChainInputs(blocks));
  }

  lemma {:induction false} FlagsIgnoreIds(c: Cache, ids: seq<Hash>, ins: seq<Input>)
    requires FlagsRecord(c, ins)
    ensures FlagsRecord(c.(blockIds := ids), ins)
  {
  }

  lemma {:induction false} TxsFlags(c: Cache, height: nat, txs: seq<Transaction>, ins: seq<Input>)
    requires FlagsRecord(c, ins) && AllMarkable(c, height, txs)
    ensures FlagsRecord(AddTxs(c, height, txs), ins + TxsInputs(txs))
  {
    hide AddTx, FlagsRecord;
    if txs == [] {
      assert ins + TxsInputs(txs) == ins;
    } else {
      var n := |txs| - 1;
      FreshPrefix(c, height, txs);
      TxsFlags(c, height, txs[..n], ins);
      assert MarkableAt(c, height, txs, n);
      FlagsStep(AddTxs(c, height, txs[..n]), TransactionIndex(height, n), txs[n], ins + TxsInputs(txs[..n]));
      assert ins + TxsInputs(txs[..n]) + txs[n].inputs == ins + TxsInputs(txs);
    }
  }
}
