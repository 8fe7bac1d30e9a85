/** What every chain of accepted blocks guarantees: no double spend, and exactly when, and conservation of money. */
module LedgerSafety {
  import opened LedgerTypes
  import opened LedgerCache
  import opened LedgerInputs
  import opened LedgerChain
  import opened LedgerSteps
  import opened Reward

  // ---- No double spend ----

  ghost predicate ImagesOnce(c: Cache, ins: seq<Input>) {
    DistinctImages(ins) && c.spent == KeyImages(ins)
  }

  /** `c` has recorded exactly the consumption of `ins`, and `ins` consumes nothing twice. */
  ghost predicate Spends(c: Cache, ins: seq<Input>) {
    ImagesOnce(c, ins) && DistinctMsigs(ins) && FlagsRecord(c, ins)
  }

  // ---- Double spends without trust in the checkpoint zone ----

  /** The outputs that `ins` consumes are pairwise different, stored and marked as used. */
  ghost predicate UsedOnce(c: Cache, ins: seq<Input>) {
    && DistinctMsigs(ins) && InRange(c.tables.msigs, MsigRefs(ins))
    && AllFlags(c.tables.msigs, MsigRefs(ins), true)
  }

  /** The inputs of the blocks above the checkpoint zone. */
  function OutsideInputs(env: Env, blocks: seq<BlockEntry>): seq<Input> {
    if blocks == [] then []
    else
      var n := |blocks| - 1;
      OutsideInputs(env, blocks[..n]) + (if env.inZone(n) then [] else TxsInputs(Txs(blocks[n].transactions)))
  }

  lemma {:induction false} ImagesConcat(ins: seq<Input>, more: seq<Input>)
    requires DistinctImages(ins) && DistinctImages(more) && KeyImages(ins) !! KeyImages(more)
    ensures DistinctImages(ins + more)
  {
    var all := ins + more;
    forall i, j | 0 <= i < j < |all| && all[i].KeyInput? && all[j].KeyInput?
      ensures all[i].keyImage != all[j].keyImage
    {
      if i < |ins| <= j {
        assert all[i].keyImage in KeyImages(ins);
        assert all[j] == more[j - |ins|] && all[j].keyImage in KeyImages(more);
      }
    }
  }

  /** A transaction that passed the checks brings only new key images, in the zone or not. */
  lemma {:induction false} CheckedImages(env: Env, blocks: seq<BlockEntry>, c: Cache, idx: TransactionIndex,
                                         tx: Transaction, ins: seq<Input>)
    requires ImagesOnce(c, ins) && Semantic(tx) && TxVerdict(env, blocks, c, tx) == Pass
    ensures ImagesOnce(AddTx(c, idx, tx), ins + tx.inputs)
  {
    PassEach(env, blocks, c, tx, |tx.inputs|);
    forall i | 0 <= i < |tx.inputs| && tx.inputs[i].KeyInput? ensures tx.inputs[i].keyImage !in c.spent {
      assert InputVerdict(env, blocks, c, tx, i) == Pass;
    }
    hide InputVerdict, InputsVerdict;
    ConcatConsumes(ins, tx.inputs);
    ImagesConcat(ins, tx.inputs);
  }

  /** Usage flags that are set stay set, whatever is pushed. */
  lemma {:induction false} UsedStays(c: Cache, idx: TransactionIndex, tx: Transaction, ins: seq<Input>)
    requires UsedOnce(c, ins)
    ensures UsedOnce(AddTx(c, idx, tx), ins)
  {
    var t := Marked(c.tables, tx.inputs);
    AddOutputsExtends(t, idx, tx.outputs);
    var m: MsigMap := AddTx(c, idx, tx).tables.msigs;
    forall r | r in MsigRefs(ins) ensures r.0 in m && r.1 < |m[r.0]| && m[r.0][r.1].isUsed {
      assert t.msigs[r.0][r.1] == m[r.0][r.1];
    }
  }

  /** Above the zone a transaction that passed the checks consumes only unused outputs, and they are used afterwards. */
  lemma {:induction false} CheckedMsigs(env: Env, blocks: seq<BlockEntry>, c: Cache, idx: TransactionIndex,
                                        tx: Transaction, ins: seq<Input>)
    requires UsedOnce(c, ins) && Semantic(tx) && TxVerdict(env, blocks, c, tx) == Pass && !env.inZone(|blocks|)
    ensures UsedOnce(AddTx(c, idx, tx), ins + tx.inputs)
  {
    CheckedSpendable(env, blocks, c, tx);
    hide InputVerdict, InputsVerdict;
    ConcatConsumes(ins, tx.inputs);
    MsigsConcat(ins, tx.inputs);
    UsedStays(c, idx, tx, ins);
    var t := Marked(c.tables, tx.inputs);
    AddOutputsExtends(t, idx, tx.outputs);
    var m: MsigMap := AddTx(c, idx, tx).tables.msigs;
    forall r | r in MsigRefs(tx.inputs) ensures r.0 in m && r.1 < |m[r.0]| && m[r.0][r.1].isUsed {
      assert t.msigs[r.0][r.1] == m[r.0][r.1];
    }
  }

  ghost predicate Once(env: Env, height: nat, c: Cache, ins: seq<Input>, outside: seq<Input>, txs: seq<Transaction>) {
    && ImagesOnce(c, ins + TxsInputs(txs))
    && UsedOnce(c, outside + (if env.inZone(height) then [] else TxsInputs(txs)))
  }

  /** The transaction loop of a block keeps both. */
  lemma {:induction false} TxsOnce(env: Env, blocks: seq<BlockEntry>, c: Cache, txs: seq<Transaction>, n: nat,
                                   ins: seq<Input>, outside: seq<Input>)
    requires ImagesOnce(c, ins) && UsedOnce(c, outside)
    requires 0 < n <= |txs| && TxsVerdict(env, blocks, c, txs, n) == Pass
    requires KeyImages(txs[0].inputs) == {} && MsigRefs(txs[0].inputs) == {}
    requires forall i :: 0 < i < |txs| ==> Semantic(txs[i])
    ensures Once(env, |blocks|, AddTxs(c, |blocks|, txs[..n]), ins, outside, txs[..n])
  {
    hide AddTx, TxVerdict, UsedOnce, ImagesOnce;
    var upto := txs[..n];
    var m := n - 1;
    assert upto[..m] == txs[..m] && upto[m] == txs[m];
    var zone := env.inZone(|blocks|);
    if n == 1 {
      assert txs[..m] == [] && AddTxs(c, |blocks|, []) == c;
      BaseOnce(c, TransactionIndex(|blocks|, 0), txs[0], ins, outside);
      assert TxsInputs(upto) == txs[0].inputs;
    } else {
      TxsOnce(env, blocks, c, txs, m, ins, outside);
      var before, done := AddTxs(c, |blocks|, txs[..m]), TxsInputs(txs[..m]);
      var idx := TransactionIndex(|blocks|, m);
      CheckedImages(env, blocks, before, idx, txs[m], ins + done);
      assert ins + done + txs[m].inputs == ins + TxsInputs(upto);
      if zone {
        UsedStays(before, idx, txs[m], outside + []);
      } else {
        CheckedMsigs(env, blocks, before, idx, txs[m], outside + done);
        assert outside + done + txs[m].inputs == outside + TxsInputs(upto);
      }
    }
    assert outside + [] == outside;
  }

  lemma {:induction false} BaseOnce(c: Cache, idx: TransactionIndex, tx: Transaction, ins: seq<Input>,
                                    outside: seq<Input>)
    requires ImagesOnce(c, ins) && UsedOnce(c, outside) && KeyImages(tx.inputs) == {} && MsigRefs(tx.inputs) == {}
    ensures ImagesOnce(AddTx(c, idx, tx), ins + tx.inputs)
    ensures UsedOnce(AddTx(c, idx, tx), outside) && UsedOnce(AddTx(c, idx, tx), outside + tx.inputs)
  {
    ConcatConsumes(ins, tx.inputs);
    ConcatConsumes(outside, tx.inputs);
    NoConsumption(tx.inputs);
    ImagesConcat(ins, tx.inputs);
    MsigsConcat(outside, tx.inputs);
    UsedStays(c, idx, tx, outside);
  }

  /**
   In every accepted chain, with no assumption about the checkpoint zone, all key images are different, and every
   multisignature output is consumed at most once by the blocks above the zone.
   */
  lemma {:induction false} NoDoubleSpendOutside(env: Env, blocks: seq<BlockEntry>)
    requires ChainAccepted(env, blocks)
    ensures ImagesOnce(Rebuild(blocks), ChainInputs(blocks))
    ensures UsedOnce(Rebuild(blocks), OutsideInputs(env, blocks))
    ensures RebuildDefined(blocks) ==> forall j :: 0 <= j < |blocks| && !env.inZone(j) ==> NothingAgain(blocks, j)
  {
    forall j | RebuildDefined(blocks) && 0 <= j < |blocks| && !env.inZone(j) ensures NothingAgain(blocks, j) {
      AboveZoneIsNew(env, blocks, j);
    }
    hide NothingAgain, RebuildDefined;
    OnceEach(env, blocks);
  }

  /** The block at height `j` consumes no multisignature output twice, and none that the chain below consumed. */
  ghost predicate NothingAgain(blocks: seq<BlockEntry>, j: nat)
    requires j < |blocks|
  {
    var ins := TxsInputs(Txs(blocks[j].transactions));
    DistinctMsigs(ins) && MsigRefs(ChainInputs(blocks[..j])) !! MsigRefs(ins)
  }

  lemma {:induction false} AboveZoneIsNew(env: Env, blocks: seq<BlockEntry>, j: nat)
    requires ChainAccepted(env, blocks) && RebuildDefined(blocks) && j < |blocks| && !env.inZone(j)
    ensures NothingAgain(blocks, j)
  {
    hide ChainAccepted, RebuildDefined, NothingAgain;
    FreshIsNew(env, blocks, j);
  }

  /** Above the zone every transaction of an accepted block consumes stored outputs, unused at its turn. */
  lemma {:induction false} AboveIsFresh(env: Env, blocks: seq<BlockEntry>, e: BlockEntry)
    requires BlockAccepted(env, blocks, e) && !env.inZone(|blocks|)
    ensures AllFresh(Rebuild(blocks), |blocks|, Txs(e.transactions))
  {
    AcceptedEntry(env, blocks, e);
    assert SemanticBlock(e.bl);
    hide VerdictOf, Rebuild, AllFresh, AllMarkable, TxsVerdict, SemanticBlock;
    var txs := BlockTxs(e.bl);
    PassedAreFresh(env, blocks, Rebuild(blocks), e.bl, |txs|);
    assert txs[..|txs|] == txs;
  }

  /** The block at height `j` consumes, if it is inside the checkpoint zone, only outputs unused at their turn. */
  ghost predicate ZoneFresh(env: Env, blocks: seq<BlockEntry>, j: nat)
    requires j < |blocks|
  {
    env.inZone(j) ==> AllFresh(Rebuild(blocks[..j]), j, Txs(blocks[j].transactions))
  }

  ghost predicate ChainFresh(env: Env, blocks: seq<BlockEntry>) {
    forall j :: 0 <= j < |blocks| ==> ZoneFresh(env, blocks, j)
  }

  lemma {:induction false} FreshSplit(env: Env, blocks: seq<BlockEntry>)
    requires blocks != []
    ensures var n := |blocks| - 1;
            ChainFresh(env, blocks) <==> ChainFresh(env, blocks[..n]) && ZoneFresh(env, blocks, n)
  {
    hide AllFresh, Rebuild;
    var n := |blocks| - 1;
    forall j | 0 <= j < n ensures ZoneFresh(env, blocks, j) <==> ZoneFresh(env, blocks[..n], j) {
      assert blocks[..n][..j] == blocks[..j];
    }
    hide ZoneFresh;
    if ChainFresh(env, blocks[..n]) && ZoneFresh(env, blocks, n) {
      forall j | 0 <= j < |blocks| ensures ZoneFresh(env, blocks, j) {
        assert j < n ==> ZoneFresh(env, blocks[..n], j);
      }
    }
    if ChainFresh(env, blocks) {
      forall j | 0 <= j < n ensures ZoneFresh(env, blocks[..n], j) {
        assert ZoneFresh(env, blocks, j);
      }
    }
  }

  /** A chain is sound exactly if it was accepted, can be rebuilt, and its zone blocks list new transactions. */
  lemma {:induction false} OkExactly(env: Env, blocks: seq<BlockEntry>)
    ensures ChainOk(env, blocks) <==>
              && ChainAccepted(env, blocks) && RebuildDefined(blocks)
              && forall j :: 0 <= j < |blocks| && env.inZone(j) ==> ListsNew(blocks[..j], blocks[j].bl)
  {
    hide BlockAccepted, Rebuild, AddTxs, ListsNew, InRange;
    if ChainOk(env, blocks) {
      OkIsAccepted(env, blocks);
      ChainRebuildDefined(env, blocks);
      forall j | 0 <= j < |blocks| && env.inZone(j) ensures ListsNew(blocks[..j], blocks[j].bl) {
        assert BlockOk(env, blocks[..j], blocks[j]);
      }
    } else if ChainAccepted(env, blocks) && RebuildDefined(blocks) {
      var j :| 0 <= j < |blocks| && !BlockOk(env, blocks[..j], blocks[j]);
      assert BlockAccepted(env, blocks[..j], blocks[j]) && BlockMarkable(blocks, j);
      AcceptedEntry(env, blocks[..j], blocks[j]);
      hide HeaderAccepted, TxsVerdict, MarkableAt;
      assert ZoneStored(env, blocks[..j], blocks[j].bl);
    }
  }

  lemma {:induction false} DistinctInputs(env: Env, blocks: seq<BlockEntry>, e: BlockEntry)
    requires BlockAccepted(env, blocks, e)
    ensures NamesTxs(e.bl)
    ensures forall n :: 0 <= n < |e.transactions| ==> DistinctMsigs(Txs(e.transactions)[n].inputs)
  {
    AcceptedEntry(env, blocks, e);
    hide VerdictOf, TxsVerdict, Rebuild;
    BaseHasNoKeys(env, e.bl.base, |blocks|);
    NoConsumption(e.bl.base.inputs);
    forall n | 0 <= n < |e.transactions| ensures DistinctMsigs(Txs(e.transactions)[n].inputs) {
      assert n > 0 ==> Semantic(BlockTxs(e.bl)[n]);
    }
  }

  /**
   The exact condition: among the accepted chains that can be rebuilt at all, those that consume no multisignature
   output twice are exactly those whose blocks inside the zone consume only unused outputs, each at its turn.
   */
  lemma {:induction false} DoubleSpendExactly(env: Env, blocks: seq<BlockEntry>)
    requires ChainAccepted(env, blocks) && RebuildDefined(blocks)
    ensures DistinctMsigs(ChainInputs(blocks)) <==> ChainFresh(env, blocks)
  {
    hide *;
    if blocks == [] {
      NoneTwice(env);
    } else {
      var n := |blocks| - 1;
      AcceptedPrefix(env, blocks, n);
      DefinedPrefix(blocks, n);
      DoubleSpendExactly(env, blocks[..n]);
      FreshIsNew(env, blocks, n);
      MsigsConcat(ChainInputs(blocks[..n]), TxsInputs(Txs(blocks[n].transactions)));
      FreshSplit(env, blocks);
      LastInputs(blocks);
    }
  }

  lemma {:induction false} NoneTwice(env: Env)
    ensures DistinctMsigs(ChainInputs([])) && ChainFresh(env, [])
  {
  }

  lemma {:induction false} LastInputs(blocks: seq<BlockEntry>)
    requires blocks != []
    ensures var n, ins := |blocks| - 1, TxsInputs(Txs(blocks[|blocks| - 1].transactions));
            && ChainInputs(blocks) == ChainInputs(blocks[..n]) + ins
            && (NothingAgain(blocks, n) <==>
                DistinctMsigs(ins) && MsigRefs(ChainInputs(blocks[..n])) !! MsigRefs(ins))
  {
  }

  /** A block is fresh exactly if it consumes nothing twice and nothing that the chain below consumed. */
  lemma {:induction false} FreshIsNew(env: Env, blocks: seq<BlockEntry>, j: nat)
    requires ChainAccepted(env, blocks) && RebuildDefined(blocks) && j < |blocks|
    ensures ZoneFresh(env, blocks, j) <==> NothingAgain(blocks, j)
  {
    hide BlockAccepted, MarkableAt, AddTxs, Rebuild, FlagsRecord, DistinctMsigs, AllFresh;
    DefinedPrefix(blocks, j);
    FlagsAreConsumed(blocks[..j]);
    assert BlockAccepted(env, blocks[..j], blocks[j]) && BlockMarkable(blocks, j);
    DistinctInputs(env, blocks[..j], blocks[j]);
    FreshIffDistinct(Rebuild(blocks[..j]), j, Txs(blocks[j].transactions), ChainInputs(blocks[..j]));
    if !env.inZone(j) {
      AboveIsFresh(env, blocks[..j], blocks[j]);
    }
  }

  /** What `c` records about the consumption of a chain, and when the chain consumes nothing twice. */
  ghost predicate SpendsExactly(env: Env, blocks: seq<BlockEntry>, c: Cache) {
    && ImagesOnce(c, ChainInputs(blocks)) && FlagsRecord(c, ChainInputs(blocks))
    && (Spends(c, ChainInputs(blocks)) <==> ChainFresh(env, blocks))
    && forall j :: 0 <= j < |blocks| && !env.inZone(j) ==> NothingAgain(blocks, j)
  }

  /**
   In every sound chain all key images are different and recorded, the usage flags are exact, and no block above the
   zone consumes again what was consumed. Nothing at all is consumed twice if and only if the zone blocks are fresh.
   */
  lemma {:induction false} NoDoubleSpend(env: Env, blocks: seq<BlockEntry>)
    requires ChainOk(env, blocks)
    ensures SpendsExactly(env, blocks, Rebuild(blocks))
  {
    hide *;
    OkIsAccepted(env, blocks);
    ChainRebuildDefined(env, blocks);
    NoDoubleSpendOutside(env, blocks);
    DoubleSpendExactly(env, blocks);
    FlagsAreConsumed(blocks);
    TogetherSpends(env, blocks, Rebuild(blocks));
  }

  lemma {:induction false} TogetherSpends(env: Env, blocks: seq<BlockEntry>, c: Cache)
    requires ImagesOnce(c, ChainInputs(blocks)) && FlagsRecord(c, ChainInputs(blocks))
    requires DistinctMsigs(ChainInputs(blocks)) <==> ChainFresh(env, blocks)
    requires forall j :: 0 <= j < |blocks| && !env.inZone(j) ==> NothingAgain(blocks, j)
    ensures SpendsExactly(env, blocks, c)
  {
  }

  lemma {:induction false} OnceEach(env: Env, blocks: seq<BlockEntry>)
    requires ChainAccepted(env, blocks)
    ensures ImagesOnce(Rebuild(blocks), ChainInputs(blocks))
    ensures UsedOnce(Rebuild(blocks), OutsideInputs(env, blocks))
  {
    hide BlockAccepted, AddTxs, UsedOnce, ImagesOnce;
    if blocks == [] {
      EmptyOnce();
    } else {
      var n := |blocks| - 1;
      AcceptedPrefix(env, blocks, n);
      OnceEach(env, blocks[..n]);
      assert BlockAccepted(env, blocks[..n], blocks[n]);
      BlockOnce(env, blocks[..n], blocks[n], ChainInputs(blocks[..n]), OutsideInputs(env, blocks[..n]));
    }
  }

  lemma {:induction false} EmptyOnce()
    ensures ImagesOnce(EMPTY_CACHE, []) && UsedOnce(EMPTY_CACHE, [])
  {
  }

  lemma {:induction false} BlockOnce(env: Env, blocks: seq<BlockEntry>, e: BlockEntry, ins: seq<Input>,
                                     outside: seq<Input>)
    requires BlockAccepted(env, blocks, e) && ImagesOnce(Rebuild(blocks), ins) && UsedOnce(Rebuild(blocks), outside)
    ensures var c, txs := AddBlock(Rebuild(blocks), |blocks|, e), Txs(e.transactions);
            && ImagesOnce(c, ins + TxsInputs(txs))
            && UsedOnce(c, outside + (if env.inZone(|blocks|) then [] else TxsInputs(txs)))
  {
    AcceptedEntry(env, blocks, e);
    var txs := BlockTxs(e.bl);
    hide Rebuild, TxsVerdict, AddTxs;
    BaseHasNoKeys(env, e.bl.base, |blocks|);
    assert SemanticBlock(e.bl);
    TxsOnce(env, blocks, Rebuild(blocks), txs, |txs|, ins, outside);
    assert txs[..|txs|] == txs;
  }

  // ---- Money conservation ----

  /** Outputs minus consumed inputs, over all transactions. */
  function TxsSupply(txs: seq<Transaction>): int {
    if txs == [] then 0
    else TxsSupply(txs[..|txs| - 1]) + SumOutputs(txs[|txs| - 1].outputs) - SumInputs(txs[|txs| - 1].inputs)
  }

  function ChainSupply(blocks: seq<BlockEntry>): int {
    if blocks == [] then 0
    else ChainSupply(blocks[..|blocks| - 1]) + TxsSupply(Txs(blocks[|blocks| - 1].transactions))
  }

  lemma {:induction false} SupplyOfBlock(txs: seq<Transaction>)
    requires txs != []
    ensures TxsSupply(txs) == SumOutputs(txs[0].outputs) - SumInputs(txs[0].inputs) - SumFees(txs)
  {
    var n := |txs| - 1;
    if n == 0 {
      assert txs[..0] == [];
    } else {
      SupplyOfBlock(txs[..n]);
    }
  }

  lemma {:induction false} EmissionIsSupply(env: Env, blocks: seq<BlockEntry>, e: BlockEntry)
    requires BlockAccepted(env, blocks, e)
    ensures e.generatedCoins == Wrap64(CoinsOf(blocks) + TxsSupply(Txs(e.transactions)))
  {
    hide *;
    AcceptedEntry(env, blocks, e);
    AcceptedMoney(env, blocks, e);
    BaseConsumesNothing(env, e.bl.base, |blocks|);
    SupplyOfBlock(BlockTxs(e.bl));
    EmissionWraps(SumOutputs(e.bl.base.outputs), SumFees(BlockTxs(e.bl)), CoinsOf(blocks));
  }

  lemma {:induction false} EmissionWraps(out: int, fees: int, before: int)
    ensures Wrap64(before + Wrap64(Wrap64(out) - Wrap64(fees))) == Wrap64(before + out - fees)
  {
    hide *;
    var net := -fees;
    WrapSub(Wrap64(out), fees);
    WrapAdd(out, net);
    WrapAdd(out + net, before);
    assert Wrap64(out) - fees == Wrap64(out) + net;
  }

  lemma {:induction false} AcceptedMoney(env: Env, blocks: seq<BlockEntry>, e: BlockEntry)
    requires BlockAccepted(env, blocks, e)
    ensures MinerPrevalidated(env, e.bl.base, |blocks|)
    ensures e.generatedCoins == Wrap64(CoinsOf(blocks)
              + Wrap64(Wrap64(SumOutputs(e.bl.base.outputs)) - Wrap64(SumFees(BlockTxs(e.bl)))))
  {
    hide Rebuild;
    hide TxsVerdict;
    hide EntryTxs;
    hide BlockReward;
    hide SumFees;
    hide SumOutputs;
    hide SumSizes;
    hide LastSizes;
    hide Wrap64;
  }

  lemma {:induction false} BaseConsumesNothing(env: Env, base: Transaction, height: nat)
    requires MinerPrevalidated(env, base, height)
    ensures SumInputs(base.inputs) == 0
  {
    assert base.inputs[..0] == [];
  }

  lemma {:induction false} WrapSub(x: int, y: int)
    ensures Wrap64(x - Wrap64(y)) == Wrap64(x - y)
  {
    var k := y / TWO64;
    assert x - Wrap64(y) == (x - y) + k * TWO64;
    WrapShift(x - y, k);
  }

  /** The tip's generated coins are, modulo 2^64, everything paid out minus everything consumed on the chain. */
  lemma {:induction false} MoneyConserved(env: Env, blocks: seq<BlockEntry>)
    requires ChainAccepted(env, blocks)
    ensures CoinsOf(blocks) == Wrap64(ChainSupply(blocks))
  {
    hide BlockAccepted;
    if blocks != [] {
      var n := |blocks| - 1;
      AcceptedPrefix(env, blocks, n);
      MoneyConserved(env, blocks[..n]);
      assert BlockAccepted(env, blocks[..n], blocks[n]);
      EmissionIsSupply(env, blocks[..n], blocks[n]);
      WrapAdd(ChainSupply(blocks[..n]), TxsSupply(Txs(blocks[n].transactions)));
    }
  }
}
