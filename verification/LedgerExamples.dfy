/** Concrete chains inside the checkpoint zone on which properties fail that hold above it. */
module LedgerExamples {
  import opened LedgerTypes
  import opened LedgerCache
  import opened LedgerInputs
  import opened LedgerChain
  import opened LedgerSteps
  import opened LedgerSafety

  /** Guards that accept everything, with every height in the checkpoint zone. */
  function ZoneEnv(): Env {
    PermissiveEnv(true, tx => 0, 0)
  }

  /** Consumes the first multisignature output of amount 0 and creates nothing. */
  predicate IsSpender(tx: Transaction) {
    tx.inputs == [MultisignatureInput(0, 1, 0)] && tx.outputs == []
  }

  predicate Spenders(txs: seq<Transaction>) {
    txs != [] && forall i :: 0 < i < |txs| ==> IsSpender(txs[i])
  }

  lemma {:induction false} SpendersPass(blocks: seq<BlockEntry>, c: Cache, txs: seq<Transaction>, n: nat)
    requires Spenders(txs) && 0 < n <= |txs|
    ensures TxsVerdict(ZoneEnv(), blocks, c, txs, n) == Pass
  {
    hide AddTxs;
    if n > 1 {
      SpendersPass(blocks, c, txs, n - 1);
      var before, tx := AddTxs(c, |blocks|, txs[..n - 1]), txs[n - 1];
      assert InputVerdict(ZoneEnv(), blocks, before, tx, 0) == Pass;
      assert InputsVerdict(ZoneEnv(), blocks, before, tx, 0) == Pass;
      assert InputsVerdict(ZoneEnv(), blocks, before, tx, 1) == Pass;
    }
  }

  lemma {:induction false} SpendersAreFree(txs: seq<Transaction>)
    requires Spenders(txs)
    ensures SumSizes(ZoneEnv(), txs) == 0 && SumFees(txs) == 0
  {
    var n := |txs| - 1;
    if n > 0 {
      SpendersAreFree(txs[..n]);
      assert IsSpender(txs[n]) && txs[n].inputs[..0] == [];
      assert SumInputs(txs[n].inputs) == SumInputs([]) + 0 && SumOutputs(txs[n].outputs) == 0;
    } else {
      assert SumSizes(ZoneEnv(), txs[..0]) == 0;
    }
  }

  lemma {:induction false} NothingDue(blocks: seq<BlockEntry>, b: Block)
    ensures MinerValidated(ZoneEnv(), blocks, b, 0, 0) <==> Wrap64(SumOutputs(b.base.outputs)) == 0
    ensures Wrap64(0) == 0
  {
  }

  /** A block on top of `blocks` that lists only spenders and passes the checks made before an index is touched. */
  ghost predicate OnTop(blocks: seq<BlockEntry>, b: Block) {
    NamesTxs(b) && Spenders(BlockTxs(b)) && HeaderAccepted(ZoneEnv(), blocks, Rebuild(blocks), b)
  }

  /** The zone takes every such block whose coinbase pays nothing, and rejects those that pay something below 2^64. */
  lemma {:induction false} ZoneVerdict(blocks: seq<BlockEntry>, b: Block)
    requires OnTop(blocks, b)
    ensures SumOutputs(b.base.outputs) == 0 ==> VerdictOf(ZoneEnv(), blocks, b).Accept?
    ensures 0 < SumOutputs(b.base.outputs) < TWO64 ==> VerdictOf(ZoneEnv(), blocks, b) == Reject
  {
    hide Rebuild, HeaderAccepted, TxsVerdict, SumSizes, SumFees, MinerValidated, SumOutputs, RewardFor, EntryTxs;
    SpendersPass(blocks, Rebuild(blocks), BlockTxs(b), |BlockTxs(b)|);
    SpendersAreFree(BlockTxs(b));
    NothingDue(blocks, b);
    assert ZoneEnv().maxBlockSize(|blocks|) == 0;
  }

  lemma {:induction false} SpendersMean(b: Block)
    requires NamesTxs(b) && Spenders(BlockTxs(b))
    ensures SemanticBlock(b)
  {
    forall i | 0 < i < |BlockTxs(b)| ensures Semantic(BlockTxs(b)[i]) {
      assert IsSpender(BlockTxs(b)[i]);
    }
  }

  lemma {:induction false} StoredEntry(blocks: seq<BlockEntry>, b: Block)
    requires OnTop(blocks, b) && VerdictOf(ZoneEnv(), blocks, b).Accept?
    ensures var e := VerdictOf(ZoneEnv(), blocks, b).entry;
            e.bl == b && Txs(e.transactions) == BlockTxs(b) && BlockAccepted(ZoneEnv(), blocks, e)
  {
    hide Rebuild, HeaderAccepted, TxsVerdict, SumSizes, SumFees, MinerValidated, RewardFor;
    SpendersMean(b);
    EntryTxsAre(Rebuild(blocks), |blocks|, BlockTxs(b));
  }

  // ---- What spenders consume ----

  lemma {:induction false} SpenderRefs(tx: Transaction)
    requires IsSpender(tx)
    ensures MsigRefs(tx.inputs) == {(0, 0)}
  {
    assert tx.inputs[0] == MultisignatureInput(0, 1, 0);
  }

  lemma {:induction false} SpendersConsume(txs: seq<Transaction>)
    requires Spenders(txs) && MsigRefs(txs[0].inputs) == {}
    ensures MsigRefs(TxsInputs(txs)) == if |txs| == 1 then {} else {(0, 0)}
    ensures |txs| > 2 ==> !DistinctMsigs(TxsInputs(txs))
  {
    var n := |txs| - 1;
    if n == 0 {
      assert TxsInputs(txs) == txs[0].inputs by { assert txs[..0] == []; }
    } else {
      SpendersConsume(txs[..n]);
      SpenderRefs(txs[n]);
      ConcatConsumes(TxsInputs(txs[..n]), txs[n].inputs);
      MsigsConcat(TxsInputs(txs[..n]), txs[n].inputs);
      assert n > 1 ==> (0, 0) in MsigRefs(TxsInputs(txs[..n])) && (0, 0) in MsigRefs(txs[n].inputs);
    }
  }

  ghost predicate HasFirst(c: Cache) {
    InRange(c.tables.msigs, {(0, 0)})
  }

  lemma {:induction false} OneMore(c: Cache, height: nat, txs: seq<Transaction>)
    requires txs != [] && HasFirst(AddTxs(c, height, txs[..|txs| - 1]))
    ensures HasFirst(AddTxs(c, height, txs))
  {
    var n := |txs| - 1;
    var before := AddTxs(c, height, txs[..n]);
    assert (0, 0) in {(0, 0)};
    AddOutputsExtends(Marked(before.tables, txs[n].inputs), TransactionIndex(height, n), txs[n].outputs);
  }

  lemma {:induction false} FirstStays(c: Cache, height: nat, txs: seq<Transaction>)
    requires HasFirst(c)
    ensures HasFirst(AddTxs(c, height, txs))
  {
    if txs != [] {
      FirstStays(c, height, txs[..|txs| - 1]);
      OneMore(c, height, txs);
    }
  }

  lemma {:induction false} SpendersMarkable(c: Cache, height: nat, txs: seq<Transaction>)
    requires Spenders(txs) && MsigRefs(txs[0].inputs) == {} && HasFirst(AddTxs(c, height, txs[..1]))
    ensures forall n :: 0 <= n < |txs| ==> MarkableAt(c, height, txs, n)
    ensures HasFirst(AddTxs(c, height, txs))
    decreases |txs|
  {
    hide AddTxs, InRange, MsigRefs, HasFirst;
    var n := |txs| - 1;
    if n == 0 {
      assert txs[..1] == txs;
      NothingInRange(AddTxs(c, height, txs[..0]));
    } else {
      assert txs[..n][..1] == txs[..1];
      SpendersMarkable(c, height, txs[..n]);
      OneMore(c, height, txs);
      forall k | 0 <= k < |txs| ensures MarkableAt(c, height, txs, k) {
        if k < n {
          assert MarkableAt(c, height, txs[..n], k) && txs[..n][..k] == txs[..k];
        } else {
          SpenderRefs(txs[n]);
          FirstInRange(AddTxs(c, height, txs[..n]));
        }
      }
    }
  }

  lemma {:induction false} NothingInRange(c: Cache)
    ensures InRange(c.tables.msigs, {})
  {
  }

  lemma {:induction false} FirstInRange(c: Cache)
    requires HasFirst(c)
    ensures InRange(c.tables.msigs, {(0, 0)})
  {
  }

  // ---- The chains ----

  /** A first block with a multisignature output, followed in the same block by transactions that consume it. */
  lemma {:induction false} FirstChain(hashes: seq<Hash>) returns (blocks: seq<BlockEntry>)
    requires NamesTxs(FirstBlock([], hashes)) && Spenders(BlockTxs(FirstBlock([], hashes))) && Distinct(hashes)
    ensures |blocks| == 1 && blocks[0].bl == FirstBlock([], hashes)
    ensures ChainOk(ZoneEnv(), blocks) && HasFirst(Rebuild(blocks))
    ensures ChainInputs(blocks) == TxsInputs(BlockTxs(FirstBlock([], hashes)))
    ensures Consumed(blocks) == if hashes == [] then {} else {(0, 0)}
    ensures |hashes| > 1 ==> !DistinctMsigs(ChainInputs(blocks))
  {
    hide ChainOk, Rebuild, AddTxs, TxsInputs, MsigRefs, DistinctMsigs, BlockAccepted, Consumed, HasFirst, MarkableAt;
    hide ListsNew, Spenders, ChainAccepted, RebuildDefined, ChainInputs, Distinct, BlockTxs;
    var env, b := ZoneEnv(), FirstBlock([], hashes);
    var txs := BlockTxs(b);
    var e := FirstEntry(hashes);
    blocks := [e];
    FirstMarkable(b);
    SpendersConsume(txs);
    OneBlock(e);
    OkExactly(env, blocks);
  }

  lemma {:induction false} FirstEntry(hashes: seq<Hash>) returns (e: BlockEntry)
    requires NamesTxs(FirstBlock([], hashes)) && Spenders(BlockTxs(FirstBlock([], hashes)))
    ensures var b := FirstBlock([], hashes);
            e.bl == b && Txs(e.transactions) == BlockTxs(b) && BlockAccepted(ZoneEnv(), [], e)
  {
    hide VerdictOf, BlockAccepted;
    var b := FirstBlock([], hashes);
    FirstHeader(ZoneEnv(), Rebuild([]), b);
    ZoneVerdict([], b);
    StoredEntry([], b);
    e := VerdictOf(ZoneEnv(), [], b).entry;
  }

  lemma {:induction false} FirstMarkable(b: Block)
    requires b == FirstBlock([], b.txHashes) && NamesTxs(b) && Spenders(BlockTxs(b))
    ensures forall n :: 0 <= n < |BlockTxs(b)| ==> MarkableAt(Rebuild([]), 0, BlockTxs(b), n)
    ensures HasFirst(AddTxs(Rebuild([]), 0, BlockTxs(b))) && MsigRefs(BlockTxs(b)[0].inputs) == {}
  {
    hide AddTxs, Rebuild, MsigRefs, MarkableAt, Spenders;
    FirstOutput(b);
    assert BlockTxs(b)[..1] == [b.base];
    SpendersMarkable(Rebuild([]), 0, BlockTxs(b));
  }

  /** What a chain of one block amounts to. */
  lemma {:induction false} OneBlock(e: BlockEntry)
    ensures var txs := Txs(e.transactions);
            && ChainInputs([e]) == TxsInputs(txs) && Consumed([e]) == MsigRefs(TxsInputs(txs))
            && (HasFirst(AddTxs(Rebuild([]), 0, txs)) ==> HasFirst(Rebuild([e])))
            && (BlockAccepted(ZoneEnv(), [], e) ==> ChainAccepted(ZoneEnv(), [e]))
            && ((forall n :: 0 <= n < |txs| ==> MarkableAt(Rebuild([]), 0, txs, n)) ==> RebuildDefined([e]))
            && (Distinct(e.bl.txHashes) ==> ListsNew([e][..0], e.bl))
  {
    hide BlockAccepted, AddTxs, MarkableAt, TxsInputs, MsigRefs, Distinct;
    assert [e][..0] == [];
    assert [] + TxsInputs(Txs(e.transactions)) == TxsInputs(Txs(e.transactions));
  }

  /** Inside the checkpoint zone one block may consume the same multisignature output twice and be accepted. */
  lemma {:induction false} ZoneReuseExample() returns (blocks: seq<BlockEntry>)
    ensures ChainOk(ZoneEnv(), blocks) && !DistinctMsigs(ChainInputs(blocks)) && !ChainFresh(ZoneEnv(), blocks)
  {
    var hashes := [TxHash(Spender(1)), TxHash(Spender(2))];
    SpendersListed(FirstBlock([], hashes));
    hide *;
    blocks := FirstChain(hashes);
    OkIsAccepted(ZoneEnv(), blocks);
    ChainRebuildDefined(ZoneEnv(), blocks);
    DoubleSpendExactly(ZoneEnv(), blocks);
  }

  lemma {:induction false} SpendersListed(b: Block)
    requires forall i :: 0 <= i < |b.txHashes| ==> exists extra: nat :: b.txHashes[i] == TxHash(Spender(extra))
    ensures NamesTxs(b) && Spenders(BlockTxs(b))
  {
    assert NamesTxs(b);
    forall i | 0 < i < |BlockTxs(b)| ensures IsSpender(BlockTxs(b)[i]) {
      var extra: nat :| b.txHashes[i - 1] == TxHash(Spender(extra));
    }
  }

  /** A second block that consumes the output again; its coinbase pays `amount` in one output, or nothing. */
  function SecondBlock(previous: Hash, amount: uint64): Block {
    var outputs := if amount == 0 then [] else [Output(amount, KeyOutput(0))];
    Block(0, 0, previous, Transaction([BaseInput(1)], outputs, 1, [], []), [TxHash(Spender(2))])
  }

  /** The first block, with one transaction that consumes its output, and a second block that fits on top of it. */
  lemma {:induction false} ConsumedChain(amount: uint64) returns (blocks: seq<BlockEntry>, b: Block)
    ensures |blocks| == 1 && ChainOk(ZoneEnv(), blocks) && HasFirst(Rebuild(blocks)) && Consumed(blocks) == {(0, 0)}
    ensures b == SecondBlock(BlockHash(blocks[0].bl), amount) && OnTop(blocks, b) && ListsNew(blocks, b)
    ensures BlockTxs(b) == [b.base, Spender(2)] && SumOutputs(b.base.outputs) == amount
    ensures MsigRefs(b.base.inputs) == {}
  {
    hide ChainOk, Rebuild, Consumed, HasFirst, SumOutputs, Spenders, MsigRefs, HeaderAccepted, ListsNew;
    var first := FirstBlock([], [TxHash(Spender(1))]);
    SpendersListed(first);
    blocks := FirstChain([TxHash(Spender(1))]);
    b := SecondBlock(BlockHash(first), amount);
    SpendersListed(b);
    assert BlockTxs(b) == [b.base, Spender(2)];
    SecondPays(b, amount);
    ChainRecorded(ZoneEnv(), blocks);
    SecondHeader(blocks, b, amount);
    SecondNew(blocks, b);
    BaseHasNoKeys(ZoneEnv(), b.base, 1);
  }

  lemma {:induction false} SecondPays(b: Block, amount: uint64)
    requires b == SecondBlock(b.previous, amount)
    ensures SumOutputs(b.base.outputs) == amount
  {
    if amount != 0 {
      assert b.base.outputs[..0] == [];
    }
  }

  lemma {:induction false} SecondHeader(blocks: seq<BlockEntry>, b: Block, amount: uint64)
    requires |blocks| == 1 && IdsOf(blocks, Rebuild(blocks).blockIds) && SumOutputs(b.base.outputs) == amount
    requires b == SecondBlock(BlockHash(blocks[0].bl), amount)
    ensures HeaderAccepted(ZoneEnv(), blocks, Rebuild(blocks), b)
  {
    hide Rebuild, SumOutputs;
    assert b.previous == BlockHash(blocks[0].bl) && blocks[0].bl != b;
  }

  lemma {:induction false} SecondNew(blocks: seq<BlockEntry>, b: Block)
    requires |blocks| == 1 && blocks[0].bl == FirstBlock([], [TxHash(Spender(1))]) && ChainOk(ZoneEnv(), blocks)
    requires b.txHashes == [TxHash(Spender(2))]
    ensures ListsNew(blocks, b)
  {
    OkAt(ZoneEnv(), blocks, 0);
    assert blocks[..0] == [] && blocks == [blocks[0]];
    AcceptedEntry(ZoneEnv(), [], blocks[0]);
    var txs := BlockTxs(blocks[0].bl);
    AddTxsHashes(Rebuild([]), 0, txs);
    hide ChainOk, AddTxs, BlockAccepted, BlockOk, HeaderAccepted;
    assert txs == [blocks[0].bl.base, Spender(1)];
    assert Spender(2).extra[0] == 2 && Spender(1).extra[0] == 1;
    assert Spender(2) !in txs;
    forall h | h in HashSet(b.txHashes) ensures h !in Rebuild(blocks).txMap {
      assert h == TxHash(Spender(2));
    }
  }

  lemma {:induction false} OnTopSpenders(blocks: seq<BlockEntry>, b: Block)
    requires OnTop(blocks, b)
    ensures NamesTxs(b) && Spenders(BlockTxs(b))
  {
  }

  /** Two zone blocks that consume one output: removing the upper one does not give back the lower one's indexes. */
  lemma {:induction false} ZonePopExample() returns (blocks: seq<BlockEntry>)
    ensures |blocks| == 2 && ChainOk(ZoneEnv(), blocks) && !NothingBack(blocks, 1)
  {
    hide VerdictOf, AddTxs, ChainOk, Rebuild, MsigRefs, TxsInputs, OnTop, ListsNew, HasFirst, BlockOk, BlockAccepted;
    hide SumOutputs;
    var below, b := ConsumedChain(0);
    OnTopSpenders(below, b);
    ZoneVerdict(below, b);
    StoredEntry(below, b);
    var e := VerdictOf(ZoneEnv(), below, b).entry;
    blocks := below + [e];
    assert blocks[..1] == below && blocks[1..] == [e];
    SpendersConsume(BlockTxs(b));
    assert BlockTxs(b)[..1] == [b.base];
    ZoneEntryOk(below, e);
    ChainExtend(ZoneEnv(), below, e);
    ConsumedLast(blocks);
  }

  lemma {:induction false} ZoneEntryOk(blocks: seq<BlockEntry>, e: BlockEntry)
    requires BlockAccepted(ZoneEnv(), blocks, e) && ListsNew(blocks, e.bl) && HasFirst(Rebuild(blocks))
    requires MsigRefs(e.bl.base.inputs) == {} && Spenders(BlockTxs(e.bl))
    ensures BlockOk(ZoneEnv(), blocks, e)
  {
    hide VerdictOf, AddTxs, Rebuild, MsigRefs, ListsNew, HasFirst, TxsVerdict, HeaderAccepted, MarkableAt;
    FirstStays(Rebuild(blocks), |blocks|, BlockTxs(e.bl)[..1]);
    SpendersMarkable(Rebuild(blocks), |blocks|, BlockTxs(e.bl));
  }

  /** A zone block that consumes a used output and pays itself too much: the reject does not restore the indexes. */
  lemma {:induction false} ZoneRejectExample() returns (blocks: seq<BlockEntry>, b: Block)
    ensures ChainOk(ZoneEnv(), blocks) && NamesTxs(b) && SemanticBlock(b) && ZoneOk(ZoneEnv(), blocks, b)
    ensures VerdictOf(ZoneEnv(), blocks, b) == Reject && !Restores(ZoneEnv(), blocks, b)
  {
    blocks, b := ConsumedChain(1);
    ZoneVerdict(blocks, b);
    SpendersMean(b);
    var c, txs := Rebuild(blocks), BlockTxs(b);
    SpendersConsume(txs);
    SpendersPass(blocks, c, txs, |txs|);
    assert txs[..|txs|] == txs;
    assert PassCount(ZoneEnv(), blocks, c, txs, |txs|) == |txs|;
    hide VerdictOf, AddTxs, ChainOk, Rebuild, MsigRefs, TxsInputs, ListsNew, HasFirst, MarkableAt, TxsVerdict;
    FirstStays(c, 1, txs[..1]);
    SpendersMarkable(c, 1, txs);
    assert (0, 0) in RejectClears(ZoneEnv(), blocks, b) && (0, 0) in Consumed(blocks);
  }
}
