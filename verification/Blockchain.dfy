/** The node's ledger object: block list, incremental indexes, transaction pool (`Blockchain.cpp`). */
module BlockchainStore {
  import opened LedgerTypes
  import opened LedgerCache
  import opened LedgerInputs
  import opened LedgerUndo
  import opened LedgerChain
  import opened LedgerSteps
  import opened LedgerReorg
  import opened BlockchainIndices
  import FormatUtils
  import LedgerRun
  import LedgerSafety
  import OutputIndex

  class Blockchain {
    const env: Env
    const payments: PaymentIdIndex
    const timestamps: TimestampBlocksIndex
    const generated: GeneratedTransactionsIndex

    var blocks: seq<BlockEntry>
    var blockIds: seq<Hash>
    var txMap: map<Hash, TransactionIndex>
    var spent: set<nat>
    var outputs: OutputMap
    var msigs: MsigMap
    var pool: map<Hash, Transaction>
    var alts: map<Hash, AltEntry>
    var sizeLimit: nat

    ghost function View(): Cache
      reads `blockIds, `txMap, `spent, `outputs, `msigs
    {
      Cache(blockIds, txMap, spent, OutputTables(outputs, msigs))
    }

    ghost predicate ExplorerOk()
      reads `blocks, payments, timestamps, generated
    {
      && payments.index == RebuildPayments(payments.pid, blocks)
      && timestamps.index == RebuildTimestamps(blocks)
      && generated.View() == TotalsOf(blocks)
    }

    /** Every stored block was accepted on the blocks below it, and every index is what rebuilding computes. */
    ghost predicate Consistent()
      reads `blocks, `blockIds, `txMap, `spent, `outputs, `msigs, payments, timestamps, generated
    {
      ChainOk(env, blocks) && View() == Rebuild(blocks) && ExplorerOk()
    }

    /** As `Consistent`, but with the usage flags of the outputs in `gone` cleared. */
    ghost predicate ConsistentBut(gone: set<(uint64, nat)>)
      reads `blocks, `blockIds, `txMap, `spent, `outputs, `msigs, payments, timestamps, generated
    {
      ChainOk(env, blocks) && View() == Cleared(Rebuild(blocks), gone) && ExplorerOk()
    }

    ghost predicate ValidBut(gone: set<(uint64, nat)>)
      reads this, payments, timestamps, generated
    {
      ConsistentBut(gone) && PoolOk(pool) && Apart(pool, txMap)
    }

    /** Clearing flags is harmless exactly if the stored blocks consumed nothing of what is cleared. */
    lemma {:induction false} FlagsBack(gone: set<(uint64, nat)>)
      requires ConsistentBut(gone)
      ensures Consistent() <==> Consumed(blocks) !! gone
      ensures ChainOk(env, blocks) && txMap == Rebuild(blocks).txMap
    {
      hide ChainOk, Rebuild, ExplorerOk;
      ClearedChain(env, blocks, gone);
    }

    lemma {:induction false} NothingCleared()
      requires Consistent()
      ensures ConsistentBut({})
    {
      hide ChainOk, Rebuild, ExplorerOk, Cleared;
      ClearedChain(env, blocks, {});
    }

    ghost predicate Valid()
      reads this, payments, timestamps, generated
    {
      Consistent() && PoolOk(pool) && Apart(pool, txMap)
    }

    /** Chain, pool and alternative blocks, as runs of the node see them. */
    ghost function State(): LedgerRun.Ledger
      reads `blocks, `pool, `alts
    {
      LedgerRun.Ledger(blocks, pool.Keys, alts)
    }

    /** What every consistent state guarantees about its own fields: exact spending, conserved money, exact vectors. */
    lemma {:induction false} ConsistentIsSafe()
      requires Consistent()
      ensures LedgerSafety.SpendsExactly(env, blocks, View())
      ensures CoinsOf(blocks) == Wrap64(LedgerSafety.ChainSupply(blocks))
      ensures OutputIndex.Lists(View().tables, OutputIndex.LocateChain(blocks))
    {
      hide *;
      FromConsistent();
      OkIsAccepted(env, blocks);
      LedgerSafety.NoDoubleSpend(env, blocks);
      LedgerSafety.MoneyConserved(env, blocks);
      OutputIndex.RebuildLists(blocks);
    }

    lemma {:induction false} FromConsistent()
      requires Consistent()
      ensures ChainOk(env, blocks) && View() == Rebuild(blocks)
    {
    }

    constructor (env: Env, pid: PaymentIdOf)
      ensures Valid() && fresh(payments) && fresh(timestamps) && fresh(generated)
      ensures this.env == env && payments.pid == pid
      ensures blocks == [] && pool == map[] && alts == map[]
    {
      this.env := env;
      payments := new PaymentIdIndex(pid);
      timestamps := new TimestampBlocksIndex();
      generated := new GeneratedTransactionsIndex();
      blocks, blockIds, txMap, spent, outputs, msigs, pool := [], [], map[], {}, map[], map[], map[];
      alts, sizeLimit := map[], 0;
    }

    // ---- One transaction ----

    /**
     `pushTransaction`. It succeeds exactly on fresh transactions and then does what rebuilding would;
     a refusal leaves every index unchanged. `BadGet` is the exception of the undo loop on a non-key input.
     */
    method PushTransaction(tx: Transaction, hash: Hash, idx: TransactionIndex)
      returns (r: PushResult, globals: seq<nat>)
      requires hash == TxHash(tx) && InRange(msigs, MsigRefs(tx.inputs))
      modifies `txMap, `spent, `outputs, `msigs, payments
      ensures r == Pushed <==> Pushable(old(View()), tx)
      ensures r == Pushed ==> View() == AddTx(old(View()), idx, tx)
      ensures r == Pushed ==> globals == GlobalIndexes(Marked(old(View().tables), tx.inputs), idx, tx.outputs)
      ensures payments.index == old(payments.index) + (if r == Pushed then PaymentOf(payments.pid, tx) else multiset{})
      ensures r == Duplicate || r == DoubleSpend ==> View() == old(View())
    {
      hide AddOutputs, GlobalIndexes, WithFlags, DistinctImages, DistinctMsigs, KeyImages, MsigRefs, InRange, PaymentOf;
      globals := [];
      if hash in txMap {
        return Duplicate, [];
      }
      RemovesAdded(txMap, hash, idx);
      txMap := txMap[hash := idx];
      var diff := FormatUtils.CheckMultisignatureInputsDiff(tx.inputs);
      if !diff {
        txMap := txMap - {hash};
        return DoubleSpend, [];
      }
      r := InsertImages(tx.inputs);
      if r == BadGet {
        return BadGet, [];
      }
      if r == DoubleSpend {
        txMap := txMap - {hash};
        return DoubleSpend, [];
      }
      MarkUsed(tx.inputs);
      globals := AppendOutputs(tx.outputs, idx);
      var _ := payments.Add(tx);
    }

    /** The key-image loop of `pushTransaction`, with its undo. */
    method InsertImages(inputs: seq<Input>) returns (r: PushResult)
      modifies `spent
      ensures r in {Pushed, DoubleSpend, BadGet}
      ensures r == Pushed <==> DistinctImages(inputs) && KeyImages(inputs) !! old(spent)
      ensures r == Pushed ==> spent == old(spent) + KeyImages(inputs)
      ensures r == DoubleSpend ==> spent == old(spent)
    {
      var i := 0;
      while i < |inputs|
        invariant 0 <= i <= |inputs|
        invariant spent == old(spent) + KeyImages(inputs[..i])
        invariant DistinctImages(inputs[..i]) && KeyImages(inputs[..i]) !! old(spent)
      {
        FormatUtils.KeyImagesStep(inputs, i);
        if inputs[i].KeyInput? {
          var image := inputs[i].keyImage;
          if image in spent {
            RepeatedImage(inputs, i, old(spent));
            var undone := UndoImages(inputs, i);
            return if undone then DoubleSpend else BadGet;
          }
          spent := spent + {image};
        }
        i := i + 1;
      }
      assert inputs[..i] == inputs;
      r := Pushed;
    }

    /** The output loop of `pushTransaction`. */
    method AppendOutputs(outs: seq<Output>, idx: TransactionIndex) returns (globals: seq<nat>)
      modifies `outputs, `msigs
      ensures OutputTables(outputs, msigs) == AddOutputs(old(OutputTables(outputs, msigs)), idx, outs)
      ensures globals == GlobalIndexes(old(OutputTables(outputs, msigs)), idx, outs)
    {
      ghost var before := OutputTables(outputs, msigs);
      globals := [];
      var o := 0;
      while o < |outs|
        invariant 0 <= o <= |outs|
        invariant OutputTables(outputs, msigs) == AddOutputs(before, idx, outs[..o])
        invariant globals == GlobalIndexes(before, idx, outs[..o])
      {
        var out := outs[o];
        assert outs[..o + 1][..o] == outs[..o];
        if out.target.KeyOutput? {
          var amountOutputs := if out.amount in outputs then outputs[out.amount] else [];
          globals := globals + [|amountOutputs|];
          outputs := outputs[out.amount := amountOutputs + [OutputRef(idx, o)]];
        } else {
          var amountOutputs := if out.amount in msigs then msigs[out.amount] else [];
          globals := globals + [|amountOutputs|];
          msigs := msigs[out.amount := amountOutputs + [MsigUsage(idx, o, false)]];
        }
        o := o + 1;
      }
      assert outs[..o] == outs;
    }

    /** The undo loop of `pushTransaction`: erases the images of inputs `i-1` down to `0`. */
    method UndoImages(inputs: seq<Input>, i: nat) returns (done: bool)
      requires i < |inputs|
      modifies `spent
      ensures done <==> forall k :: 0 <= k < i ==> inputs[k].KeyInput?
      ensures done ==> spent == old(spent) - KeyImages(inputs[..i])
    {
      var j := i;
      assert inputs[i..i] == [] && KeyImages(inputs[i..i]) == {};
      while j > 0
        invariant 0 <= j <= i
        invariant forall k :: j <= k < i ==> inputs[k].KeyInput?
        invariant spent == old(spent) - KeyImages(inputs[j..i])
      {
        j := j - 1;
        if !inputs[j].KeyInput? {
          return false;
        }
        spent := spent - {inputs[j].keyImage};
        assert inputs[j..i] == [inputs[j]] + inputs[j + 1..i];
        ImagesCons(inputs[j], inputs[j + 1..i]);
      }
      assert inputs[0..i] == inputs[..i];
      done := true;
    }

    /** The multisignature loop of `pushTransaction`. */
    method MarkUsed(inputs: seq<Input>)
      requires InRange(msigs, MsigRefs(inputs))
      modifies `msigs
      ensures msigs == WithFlags(old(msigs), MsigRefs(inputs), true)
    {
      hide WithFlags;
      NoFlags(msigs, true);
      var i := 0;
      while i < |inputs|
        invariant 0 <= i <= |inputs|
        invariant msigs == WithFlags(old(msigs), MsigRefs(inputs[..i]), true)
      {
        FormatUtils.MsigRefsStep(inputs, i);
        if inputs[i].MultisignatureInput? {
          var a, k := inputs[i].amount, inputs[i].outputIndex;
          assert (a, k) in MsigRefs(inputs);
          assert (a, k).0 in old(msigs) && (a, k).1 < |old(msigs)[(a, k).0]|;
          OneFlag(old(msigs), MsigRefs(inputs[..i]), a, k, true);
          msigs := msigs[a := msigs[a][k := msigs[a][k].(isUsed := true)]];
        } else {
          assert MsigRefs(inputs[..i + 1]) == MsigRefs(inputs[..i]);
        }
        i := i + 1;
      }
      assert inputs[..i] == inputs;
    }

    /** `popTransaction`: `ok` tells that no "consistency broken" branch was taken. */
    method PopTransaction(tx: Transaction, hash: Hash) returns (ok: bool)
      requires hash == TxHash(tx) && PopDefined(View(), tx)
      modifies `txMap, `spent, `outputs, `msigs, payments
      ensures (View(), ok) == PopTx(old(View()), tx)
      ensures payments.index == old(payments.index) - PaymentOf(payments.pid, tx)
    {
      var idx := txMap[hash];
      var outputsOk := RemoveOutputs(tx.outputs, idx);
      var inputsOk := ReleaseInputs(tx.inputs);
      var _ := payments.Remove(tx);
      txMap := txMap - {hash};
      ok := outputsOk && inputsOk;
    }

    /** The output loop of `popTransaction`, last output first. */
    method RemoveOutputs(outs: seq<Output>, idx: TransactionIndex) returns (ok: bool)
      modifies `outputs, `msigs
      ensures (OutputTables(outputs, msigs), ok) == PopOutputs(old(OutputTables(outputs, msigs)), idx, outs)
    {
      ghost var all := PopOutputs(OutputTables(outputs, msigs), idx, outs);
      ok := true;
      var o := |outs|;
      assert outs[..o] == outs;
      while o > 0
        invariant 0 <= o <= |outs|
        invariant var rest := PopOutputs(OutputTables(outputs, msigs), idx, outs[..o]);
                  all == (rest.0, ok && rest.1)
      {
        assert outs[..o][..o - 1] == outs[..o - 1];
        o := o - 1;
        var out := outs[o];
        if out.target.KeyOutput? {
          if out.amount !in outputs || outputs[out.amount] == [] {
            ok := false;
          } else {
            var v := outputs[out.amount];
            if v[|v| - 1].txIndex != idx || v[|v| - 1].output != o {
              ok := false;
            } else {
              outputs := if |v| == 1 then outputs - {out.amount} else outputs[out.amount := v[..|v| - 1]];
            }
          }
        } else {
          if out.amount !in msigs || msigs[out.amount] == [] {
            ok := false;
          } else {
            var v := msigs[out.amount];
            if v[|v| - 1].isUsed || v[|v| - 1].txIndex != idx || v[|v| - 1].output != o {
              ok := false;
            } else {
              msigs := if |v| == 1 then msigs - {out.amount} else msigs[out.amount := v[..|v| - 1]];
            }
          }
        }
      }
    }

    /** The input loop of `popTransaction`. */
    method ReleaseInputs(inputs: seq<Input>) returns (ok: bool)
      requires InRange(msigs, MsigRefs(inputs))
      modifies `spent, `msigs
      ensures spent == old(spent) - KeyImages(inputs)
      ensures msigs == WithFlags(old(msigs), MsigRefs(inputs), false)
      ensures ok <==> && DistinctImages(inputs) && KeyImages(inputs) <= old(spent)
                      && DistinctMsigs(inputs) && AllFlags(old(msigs), MsigRefs(inputs), true)
    {
      hide WithFlags;
      NoFlags(msigs, false);
      ok := true;
      var i := 0;
      while i < |inputs|
        invariant 0 <= i <= |inputs|
        invariant spent == old(spent) - KeyImages(inputs[..i])
        invariant msigs == WithFlags(old(msigs), MsigRefs(inputs[..i]), false)
        invariant InRange(old(msigs), MsigRefs(inputs[..i]))
        invariant ok <==> && DistinctImages(inputs[..i]) && KeyImages(inputs[..i]) <= old(spent)
                          && DistinctMsigs(inputs[..i]) && AllFlags(old(msigs), MsigRefs(inputs[..i]), true)
      {
        FormatUtils.MsigRefsStep(inputs, i);
        FormatUtils.KeyImagesStep(inputs, i);
        FormatUtils.DistinctStep(inputs, i);
        if inputs[i].KeyInput? {
          assert MsigRefs(inputs[..i + 1]) == MsigRefs(inputs[..i]);
          if inputs[i].keyImage !in spent {
            ok := false;
          }
          spent := spent - {inputs[i].keyImage};
        } else if inputs[i].MultisignatureInput? {
          var a, k := inputs[i].amount, inputs[i].outputIndex;
          assert (a, k) in MsigRefs(inputs);
          assert (a, k).0 in old(msigs) && (a, k).1 < |old(msigs)[(a, k).0]|;
          assert msigs[a][k] == FlagAt(old(msigs), MsigRefs(inputs[..i]), false, a, k);
          FlagsExtend(old(msigs), MsigRefs(inputs[..i]), a, k);
          OneFlag(old(msigs), MsigRefs(inputs[..i]), a, k, false);
          if !msigs[a][k].isUsed {
            ok := false;
          }
          msigs := msigs[a := msigs[a][k := msigs[a][k].(isUsed := false)]];
        } else {
          assert MsigRefs(inputs[..i + 1]) == MsigRefs(inputs[..i]);
        }
        i := i + 1;
      }
      assert inputs[..i] == inputs;
    }

    /** `popTransactions`: the pushed transactions of `b`, last first, the coinbase at the end. */
    method PopTransactions(transactions: seq<TransactionEntry>, b: Block) returns (ok: bool)
      requires ListsTransactions(transactions, b)
      requires PopTxsDefined(View(), Txs(transactions))
      modifies `txMap, `spent, `outputs, `msigs, payments
      ensures (View(), ok) == PopTxs(old(View()), Txs(transactions))
      ensures payments.index == old(payments.index) - PaymentsOf(payments.pid, Txs(transactions))
    {
      hide *;
      ghost var txs := Txs(transactions);
      ghost var all := PopTxs(View(), txs);
      ListedHashes(transactions, b);
      ok := true;
      var n := |transactions|;
      assert txs[..n] == txs;
      while n > 1
        invariant 1 <= n <= |transactions|
        invariant PopTxsDefined(View(), txs[..n])
        invariant all == (PopTxs(View(), txs[..n]).0, PopTxs(View(), txs[..n]).1 && ok)
        invariant old(payments.index) - PaymentsOf(payments.pid, txs)
                  == payments.index - PaymentsOf(payments.pid, txs[..n])
      {
        PopTxsStep(View(), txs, n);
        PaymentsStep(payments.pid, txs, n);
        n := n - 1;
        var one := PopTransaction(transactions[n].tx, b.txHashes[n - 1]);
        ok := one && ok;
      }
      PopTxsStep(View(), txs, 1);
      PaymentsStep(payments.pid, txs, 1);
      assert txs[..0] == [];
      var last := PopTransaction(b.base, TxHash(b.base));
      ok := last && ok;
      PopNothing(View(), payments.pid);
    }

    /** `checkTransactionInputs`. */
    method CheckTransactionInputs(tx: Transaction) returns (v: Verdict)
      ensures v == TxVerdict(env, blocks, View(), tx)
    {
      var i := 0;
      while i < |tx.inputs|
        invariant 0 <= i <= |tx.inputs|
        invariant InputsVerdict(env, blocks, View(), tx, i) == Pass
      {
        match tx.inputs[i] {
          case KeyInput(_, outputIndexes, keyImage) =>
            if outputIndexes == [] || keyImage in spent {
              v := Fail;
            } else if !env.inZone(|blocks|) {
              v := env.keyInput(blocks, outputs, tx, i);
            } else {
              v := Pass;
            }
          case MultisignatureInput(_, _, _) =>
            if !env.inZone(|blocks|) {
              v := ValidateInput(env, blocks, msigs, tx, i);
            } else {
              v := Pass;
            }
          case BaseInput(_) =>
            v := Fail;
        }
        if v != Pass {
          FirstVerdict(env, blocks, View(), tx, i);
          return v;
        }
        i := i + 1;
      }
      v := Pass;
    }

    /** `prevalidate_miner_transaction`. */
    method PrevalidateMinerTransaction(base: Transaction) returns (r: bool)
      ensures r <==> MinerPrevalidated(env, base, |blocks|)
    {
      if |base.inputs| != 1 || base.signatures != [] || !base.inputs[0].BaseInput? {
        return false;
      }
      if base.inputs[0].blockIndex != |blocks| || base.unlockTime != |blocks| + env.unlockWindow {
        return false;
      }
      r := FormatUtils.CheckOutsOverflow(base.outputs);
    }

    /** `validate_miner_transaction`: on success also the emission. */
    method ValidateMinerTransaction(b: Block, size: nat, fee: uint64) returns (r: Option<uint64>)
      ensures r.Some? <==> MinerValidated(env, blocks, b, size, fee)
      ensures r.Some? ==> r.value == RewardFor(env, blocks, b, size, fee).value.emission
    {
      var minerReward: uint64 := 0;
      var i := 0;
      while i < |b.base.outputs|
        invariant 0 <= i <= |b.base.outputs|
        invariant minerReward == Wrap64(SumOutputs(b.base.outputs[..i]))
      {
        assert b.base.outputs[..i + 1][..i] == b.base.outputs[..i];
        WrapAdd(SumOutputs(b.base.outputs[..i]), b.base.outputs[i].amount);
        minerReward := Wrap64(minerReward + b.base.outputs[i].amount);
        i := i + 1;
      }
      assert b.base.outputs[..i] == b.base.outputs;
      var reward := RewardFor(env, blocks, b, size, fee);
      if reward.None? || minerReward != reward.value.reward {
        return None;
      }
      return Some(reward.value.emission);
    }

    /**
     `pushBlock(blockData, transactions)`: the exit taken is the verdict on the stored chain. Acceptance leaves all
     indexes equal to what rebuilding computes. An undoing reject clears the usage flags of what was pushed; the size
     exit and an exception leave the pushed transactions behind. So consistency is lost exactly there, and on a reject
     of a block that consumed used outputs, which can only be inside the checkpoint zone.
     */
    method PushBlockWith(b: Block, txs: seq<Transaction>) returns (r: Outcome)
      requires Consistent() && NamesTxs(b) && SemanticBlock(b) && [b.base] + txs == BlockTxs(b)
      requires ZoneOk(env, blocks, b)
      modifies `blocks, `blockIds, `txMap, `spent, `outputs, `msigs, `sizeLimit, payments, timestamps, generated
      ensures r == OutcomeOf(VerdictOf(env, old(blocks), b))
      ensures r == Added ==> blocks == old(blocks) + [VerdictOf(env, old(blocks), b).entry]
      ensures r != Added ==> blocks == old(blocks)
      ensures r == Rejected ==> View() == Cleared(old(View()), RejectClears(env, blocks, b))
      ensures r == Rejected && Restores(env, blocks, b) ==> View() == old(View())
      ensures !env.inZone(|old(blocks)|) ==> Restores(env, old(blocks), b)
      ensures r == SizeExit ==> View() == AddTxs(old(View()), |blocks|, BlockTxs(b))
      ensures r == Added ==> sizeLimit == NextSizeLimit(env, blocks)
      ensures Consistent() <==> r == Added || (r == Rejected && Restores(env, old(blocks), b))
      ensures KnownFrom(txMap, old(txMap), b)
    {
      hide BlockOk, ChainOk, VerdictOf, Rebuild, AddTx, AddTxs, Recorded, PushedUpTo, ZoneOk, KnownFrom;
      hide RejectClears, Restores, Cleared;
      hide HeaderAccepted, RewardFor, MinerValidated, RebuildPayments, Pushing, InRange, Pushable;
      hide RebuildTimestamps, TotalsOf, HashSet, Wrap64, SemanticBlock, NamesTxs, NextSizeLimit;
      NothingNew(txMap, b);
      ChainRecorded(env, blocks);
      RejectExit(env, blocks, b);
      var headerOk := CheckHeader(b);
      if !headerOk {
        HeaderVerdict(env, blocks, b);
        return Rejected;
      }
      FirstPush(env, payments.pid, blocks, b, payments.index);
      var v, entries, size, fees := PushAll(b, txs);
      if v != Pass {
        return if v == Fail then Rejected else Exception;
      }
      ghost var p := Progress(View(), payments.index, entries, size, fees);
      AllPassed(env, payments.pid, blocks, b, old(payments.index), p);
      if size > env.maxBlockSize(|blocks|) {
        return SizeExit;
      }
      var emission := ValidateMinerTransaction(b, size, fees);
      if emission.None? {
        StoppedClears(env, payments.pid, blocks, b, |txs| + 1, old(payments.index), p);
        UndoAll(b, entries, |txs| + 1, old(payments.index), p);
        return Rejected;
      }
      var e := BlockEntry(b, |blocks|, size,
                          env.difficulty(blocks, b)
                              + (if blocks == [] then 0 else blocks[|blocks| - 1].cumulativeDifficulty),
                          Wrap64(CoinsOf(blocks) + emission.value), entries);
      StoreEntry(e, p);
      r := Added;
    }

    /** `update_next_cumulative_size_limit`, for the block after the last one. */
    method UpdateNextCumulativeSizeLimit()
      modifies `sizeLimit
      ensures sizeLimit == NextSizeLimit(env, blocks)
    {
      var median := env.sizeMedian(LastSizes(blocks, env.rewardWindow));
      if median <= env.fullRewardZone(|blocks|) {
        median := env.fullRewardZone(|blocks|);
      }
      sizeLimit := median * 2;
    }

    /** The accepting exit of `pushBlock`: the entry is stored on top of the already pushed transactions. */
    method StoreEntry(e: BlockEntry, ghost p: Progress)
      requires ChainOk(env, blocks) && NamesTxs(e.bl) && VerdictOf(env, blocks, e.bl) == Accept(e)
      requires PushedUpTo(env, payments.pid, blocks, e.bl, |BlockTxs(e.bl)|, RebuildPayments(payments.pid, blocks), p)
      requires View() == p.view && payments.index == p.pay
      requires timestamps.index == RebuildTimestamps(blocks) && generated.View() == TotalsOf(blocks)
      modifies `blocks, `blockIds, `sizeLimit, timestamps, generated
      ensures Consistent() && blocks == old(blocks) + [e] && sizeLimit == NextSizeLimit(env, blocks)
    {
      hide BlockOk, ChainOk, VerdictOf, Rebuild, AddTxs, PushedUpTo, ZoneOk, RebuildPayments;
      hide RebuildTimestamps, TotalsOf, HashSet, NamesTxs, BlockTxs, GeneratedAdd, NextSizeLimit;
      AcceptedExtends(env, payments.pid, blocks, e, p);
      PushEntry(e);
      UpdateNextCumulativeSizeLimit();
    }

    /** The push of the coinbase and the transaction loop of `pushBlock`, with the undo of the first bad transaction. */
    method PushAll(b: Block, txs: seq<Transaction>)
      returns (v: Verdict, entries: seq<TransactionEntry>, size: nat, fees: uint64)
      requires NamesTxs(b) && [b.base] + txs == BlockTxs(b) && View() == Rebuild(blocks)
      requires InRange(msigs, MsigRefs(b.base.inputs)) && Pushable(View(), b.base)
      requires PushedUpTo(env, payments.pid, blocks, b, 1, payments.index,
                          Pushing(env, payments.pid, Progress(View(), payments.index, [], 0, 0),
                                  TransactionIndex(|blocks|, 0), b.base, 0))
      modifies `txMap, `spent, `outputs, `msigs, payments
      ensures v == Pass ==> PushedUpTo(env, payments.pid, blocks, b, |BlockTxs(b)|, old(payments.index),
                                       Progress(View(), payments.index, entries, size, fees))
      ensures v == Fail ==>
                View() == Cleared(old(View()), RejectClears(env, blocks, b)) && payments.index == old(payments.index)
      ensures v != Pass ==> VerdictOf(env, blocks, b) == (if v == Fail then Reject else Threw)
      ensures v != Fail ==> View() != Rebuild(blocks)
      ensures KnownFrom(txMap, old(txMap), b)
    {
      hide VerdictOf, Rebuild, AddTx, PushedUpTo, TxVerdict, WrappedFee, Pushable, KnownFrom, RejectClears, TxsInputs;
      hide PaymentOf, GlobalIndexes, Marked, InRange, MsigRefs, HashSet, Wrap64, NamesTxs;
      ghost var before, all := payments.index, BlockTxs(b);
      NothingNew(txMap, b);
      var height := |blocks|;
      var pushed, globals := PushTransaction(b.base, TxHash(b.base), TransactionIndex(height, 0));
      entries, size, fees := [TransactionEntry(b.base, globals)], env.txSize(b.base), 0;
      FreshFees();
      assert [] + [TransactionEntry(b.base, globals)] == entries;
      var i := 0;
      while i < |txs|
        invariant 0 <= i <= |txs|
        invariant PushedUpTo(env, payments.pid, blocks, b, i + 1, before,
                             Progress(View(), payments.index, entries, size, fees))
      {
        ghost var p := Progress(View(), payments.index, entries, size, fees);
        assert all[i + 1] == txs[i];
        v := CheckTransactionInputs(txs[i]);
        if v != Pass {
          TxsStop(env, payments.pid, blocks, b, i + 1, before, p);
          ProgressVisible(env, payments.pid, blocks, b, i + 1, before, p);
          if v == Fail {
            StoppedClears(env, payments.pid, blocks, b, i + 1, before, p);
            UndoAll(b, entries, i + 1, before, p);
          }
          return;
        }
        ghost var q := PushStep(env, payments.pid, blocks, b, i + 1, before, p);
        var again, more := PushTransaction(txs[i], b.txHashes[i], TransactionIndex(height, i + 1));
        entries := entries + [TransactionEntry(txs[i], more)];
        size := size + env.txSize(txs[i]);
        fees := Wrap64(fees + WrappedFee(txs[i]));
        assert Progress(View(), payments.index, entries, size, fees) == q;
        i := i + 1;
      }
      ProgressVisible(env, payments.pid, blocks, b, i + 1, before,
                      Progress(View(), payments.index, entries, size, fees));
      v := Pass;
    }

    /** The undo of a reject exit: `popTransactions` on what was pushed so far. */
    method UndoAll(b: Block, entries: seq<TransactionEntry>, ghost n: nat, ghost before: Payments, ghost p: Progress)
      requires NamesTxs(b) && n <= |BlockTxs(b)| && PushedUpTo(env, payments.pid, blocks, b, n, before, p)
      requires View() == p.view && payments.index == p.pay && entries == p.entries
      modifies `txMap, `spent, `outputs, `msigs, payments
      ensures View() == Cleared(Rebuild(blocks), MsigRefs(TxsInputs(BlockTxs(b)[..n]))) && payments.index == before
    {
      hide *;
      UndoDefined(env, payments.pid, blocks, b, n, before, p);
      var _ := PopTransactions(entries, b);
    }

    /** The checks of `pushBlock` that come before the first index is touched. */
    method CheckHeader(b: Block) returns (r: bool)
      requires blocks != [] ==> blockIds != [] && blockIds[|blockIds| - 1] == TailId(blocks)
      ensures r <==> HeaderAccepted(env, blocks, View(), b)
    {
      if BlockHash(b) in blockIds {
        return false;
      }
      var tail := if blocks == [] then NullHash else blockIds[|blockIds| - 1];
      if !env.headerOk(blocks, b) || b.previous != tail || env.difficulty(blocks, b) == 0 {
        return false;
      }
      r := PrevalidateMinerTransaction(b.base);
    }

    /** `pushBlock(BlockEntry)`. */
    method PushEntry(e: BlockEntry)
      requires ClaimsHeight(e.bl)
      modifies `blocks, `blockIds, timestamps, generated
      ensures blocks == old(blocks) + [e]
      ensures blockIds == PushId(old(blockIds), BlockHash(e.bl))
      ensures timestamps.index == old(timestamps.index) + multiset{(e.bl.timestamp, BlockHash(e.bl))}
      ensures generated.View() == GeneratedAdd(old(generated.View()), e.bl)
    {
      blocks := blocks + [e];
      if BlockHash(e.bl) !in blockIds {
        blockIds := blockIds + [BlockHash(e.bl)];
      }
      timestamps.Add(e.bl.timestamp, BlockHash(e.bl));
      var _ := generated.Add(e.bl);
    }

    // ---- Transactions between pool and chain ----

    /** `loadTransactions`: takes all listed transactions, or none. */
    method LoadTransactions(b: Block) returns (ok: bool, txs: seq<Transaction>)
      requires PoolOk(pool)
      modifies `pool
      ensures ok <==> Available(old(pool), b.txHashes)
      ensures ok ==> NamesTxs(b) && SemanticBlock(b) && [b.base] + txs == BlockTxs(b)
      ensures pool == if ok then old(pool) - HashSet(b.txHashes) else old(pool)
    {
      hide Available, Distinct, HashSet, NamesTxs, SemanticBlock;
      NoneTaken(pool);
      assert b.txHashes[..0] == [];
      txs := [];
      var i := 0;
      while i < |b.txHashes|
        invariant 0 <= i <= |b.txHashes| && |txs| == i
        invariant Available(old(pool), b.txHashes[..i]) && pool == old(pool) - HashSet(b.txHashes[..i])
        invariant forall k :: 0 <= k < i ==> b.txHashes[k] in old(pool) && txs[k] == old(pool)[b.txHashes[k]]
      {
        AvailableStep(old(pool), b.txHashes, i);
        if b.txHashes[i] !in pool {
          NotAvailable(old(pool), b.txHashes, i);
          var j := 0;
          while j < i
            invariant 0 <= j <= i
            invariant pool == old(pool) - HashSet(b.txHashes[..i - j])
          {
            AvailableStep(old(pool), b.txHashes, i - 1 - j);
            AvailablePrefix(old(pool), b.txHashes, i, i - 1 - j);
            var tx := txs[i - 1 - j];
            assert TxHash(tx) == b.txHashes[i - 1 - j];
            pool := pool[TxHash(tx) := tx];
            j := j + 1;
          }
          assert b.txHashes[..0] == [] && pool == old(pool);
          return false, txs;
        }
        txs := txs + [pool[b.txHashes[i]]];
        pool := pool - {b.txHashes[i]};
        i := i + 1;
      }
      assert b.txHashes[..i] == b.txHashes;
      AvailableNames(old(pool), b);
      assert [b.base] + txs == BlockTxs(b);
      ok := true;
    }

    /** `saveTransactions`, last transaction first. */
    method SaveTransactions(txs: seq<Transaction>)
      modifies `pool
      ensures pool == old(pool) + Named(HashesOf(txs))
    {
      hide *;
      NamedNil();
      assert txs[|txs|..] == [] && HashesOf([]) == [];
      var i := 0;
      while i < |txs|
        invariant 0 <= i <= |txs|
        invariant pool == old(pool) + Named(HashesOf(txs[|txs| - i..]))
      {
        var tx := txs[|txs| - 1 - i];
        assert txs[|txs| - 1 - i..] == [tx] + txs[|txs| - i..];
        NamedCons(tx, txs[|txs| - i..]);
        pool := pool[TxHash(tx) := tx];
        i := i + 1;
      }
      assert txs[0..] == txs;
    }

    /** `pushBlock(blockData)`: the listed transactions move from the pool into the chain, or stay in the pool. */
    method PushBlock(b: Block) returns (r: Outcome)
      requires Valid() && (Available(pool, b.txHashes) && NamesTxs(b) ==> ZoneStored(env, blocks, b))
      modifies `blocks, `blockIds, `txMap, `spent, `outputs, `msigs, `sizeLimit, `pool, payments, timestamps, generated
      ensures !Available(old(pool), b.txHashes) ==> r == Rejected
      ensures Available(old(pool), b.txHashes) ==> NamesTxs(b) && r == OutcomeOf(VerdictOf(env, old(blocks), b))
      ensures r == Added ==> blocks == old(blocks) + [VerdictOf(env, old(blocks), b).entry]
      ensures r == Added ==> pool == old(pool) - HashSet(b.txHashes) && sizeLimit == NextSizeLimit(env, blocks)
      ensures r != Added ==> blocks == old(blocks)
      ensures r == Rejected ==> pool == old(pool)
      ensures r == Rejected ==>
                View() == if Available(pool, b.txHashes) then Cleared(old(View()), RejectClears(env, blocks, b))
                          else old(View())
      ensures Available(old(pool), b.txHashes) && !env.inZone(|old(blocks)|) ==> Restores(env, old(blocks), b)
      ensures Valid() <==> || r == Added
                           || (r == Rejected && (Available(pool, b.txHashes) ==> Restores(env, blocks, b)))
    {
      hide ChainOk, Rebuild, VerdictOf, RebuildPayments, RebuildTimestamps, TotalsOf, Semantic, ZoneStored;
      hide RejectClears, Restores, ListsNew;
      hide Available, SemanticBlock, NamesTxs, BlockTxs, NextSizeLimit;
      var ok, txs := LoadTransactions(b);
      if !ok {
        return Rejected;
      }
      AvailableNew(old(pool), blocks, b);
      r := PushBlockWith(b, txs);
      if r == Added {
        BaseNotPooled(env, old(pool), old(blocks), b);
      }
      if r == Rejected || r == SizeExit {
        SaveTransactions(txs);
        SavedAgain(old(pool), b, txs);
      }
    }

    // ---- Removing blocks ----

    /**
     `removeLastBlock`, possibly after other blocks whose removal cleared the flags in `gone`. What the block consumed
     is unused afterwards, so the shorter chain's indexes come back if and only if that chain consumed nothing of it.
     `ok` tells that no "consistency broken" branch was taken.
     */
    method RemoveLastBlock(ghost gone: set<(uint64, nat)>) returns (ok: bool)
      requires ConsistentBut(gone) && blocks != []
      modifies `blocks, `blockIds, `txMap, `spent, `outputs, `msigs, payments, timestamps, generated
      ensures Shortened(old(blocks), blocks)
      ensures var ins := TxsInputs(Txs(LastOf(old(blocks)).transactions));
              && ConsistentBut(gone + MsigRefs(ins)) && (Consistent() <==> Consumed(blocks) !! gone + MsigRefs(ins))
              && (ok <==> DistinctMsigs(ins) && MsigRefs(ins) !! gone)
    {
      hide ChainOk, Rebuild, PopTxs, PopTxsDefined, RebuildPayments, RebuildTimestamps, TotalsOf, PaymentsOf;
      hide ListsTransactions, ClearedTables, MsigRefs, TxsInputs, DistinctMsigs, Consumed;
      ghost var n, ins := |blocks| - 1, TxsInputs(Txs(LastOf(blocks).transactions));
      var last := LastOf(blocks);
      ChainPrefix(env, blocks, n);
      ChainHeights(env, blocks);
      LastBlockUndone(env, blocks, gone);
      RebuildIndicesStep(payments.pid, blocks);
      TotalsRemove(blocks);
      ok := PopTransactions(last.transactions, last.bl);
      var removed := timestamps.Remove(last.bl.timestamp, blockIds[last.height]);
      removed := generated.Remove(last.bl);
      blocks := blocks[..|blocks| - 1];
      blockIds := blockIds[..|blockIds| - 1];
      FlagsBack(gone + MsigRefs(ins));
    }

    /** `popBlock`: the last block's transactions go back to the pool. */
    method PopBlock(ghost gone: set<(uint64, nat)>)
      requires ValidBut(gone)
      modifies `blocks, `blockIds, `txMap, `spent, `outputs, `msigs, `pool, payments, timestamps, generated
      ensures old(blocks) == [] ==> blocks == [] && pool == old(pool) && ValidBut(gone) && Valid() == old(Valid())
      ensures old(blocks) != [] ==>
                var refs := MsigRefs(TxsInputs(Txs(LastOf(old(blocks)).transactions)));
                && Shortened(old(blocks), blocks) && pool == old(pool) + Named(LastOf(old(blocks)).bl.txHashes)
                && ValidBut(gone + refs) && (Valid() <==> Consumed(blocks) !! gone + refs)
    {
      hide ChainOk, Rebuild, NamesTxs, PoolOk, Apart, Named, Consistent, ConsistentBut, MsigRefs, TxsInputs, Consumed;
      if blocks != [] {
        FlagsBack(gone);
        ReturnedApart(env, pool, blocks);
        ghost var refs := MsigRefs(TxsInputs(Txs(LastOf(blocks).transactions)));
        SaveTransactions(Txs(LastOf(blocks).transactions)[1..]);
        var _ := RemoveLastBlock(gone);
        FlagsBack(gone + refs);
      }
    }

    lemma {:induction false} ViewTxMap()
      requires Consistent()
      ensures ChainOk(env, blocks) && txMap == Rebuild(blocks).txMap
    {
      hide Rebuild;
    }

    /**
     `rollbackBlockchainTo`; the removed transactions do not go back to the pool. The indexes of the shorter chain come
     back if and only if the removed blocks consumed nothing that it consumed.
     */
    method RollbackBlockchainTo(height: nat)
      requires Consistent()
      modifies `blocks, `blockIds, `txMap, `spent, `outputs, `msigs, payments, timestamps, generated
      ensures blocks == if height + 1 < |old(blocks)| then old(blocks)[..height + 1] else old(blocks)
      ensures Consistent() <==> height + 1 >= |old(blocks)| || NothingBack(old(blocks), height + 1)
      ensures old(Valid()) ==> (Valid() <==> Consistent())
    {
      hide ChainOk, Rebuild, Consistent, ConsistentBut, PoolOk, Apart, Consumed;
      ghost var all := blocks;
      NothingCleared();
      NothingConsumed(all);
      while height + 1 < |blocks|
        invariant |blocks| <= |all| && blocks == all[..|blocks|] && ConsistentBut(Consumed(all[|blocks|..]))
        invariant height + 1 < |all| ==> height + 1 <= |blocks|
        invariant height + 1 >= |all| ==> blocks == all
        invariant txMap.Keys <= old(txMap).Keys
      {
        ghost var n := |blocks| - 1;
        FlagsBack(Consumed(all[|blocks|..]));
        FewerRecorded(env, blocks);
        ConsumedOne(all, n);
        RemovedTogether(Consumed(all[n + 1..]), MsigRefs(TxsInputs(Txs(all[n].transactions))));
        var _ := RemoveLastBlock(Consumed(all[|blocks|..]));
        FlagsBack(Consumed(all[n..]));
      }
      FlagsBack(Consumed(all[|blocks|..]));
      NothingConsumed(all);
      if old(Valid()) {
        StaysApart(pool, old(txMap), txMap);
      }
    }

    // ---- Rebuilding and resetting ----

    /** `rebuildCache`: the loops compute the specification from the block list alone. */
    method RebuildCache()
      requires RebuildDefined(blocks)
      modifies `blockIds, `txMap, `spent, `outputs, `msigs
      ensures View() == Rebuild(blocks)
    {
      hide RebuildDefined, Rebuild, AddTxs;
      blockIds, txMap, spent, outputs, msigs := [], map[], {}, map[], map[];
      NothingAdded(View(), 0);
      assert blocks[..0] == [];
      var b := 0;
      while b < |blocks|
        invariant 0 <= b <= |blocks|
        invariant View() == Rebuild(blocks[..b])
      {
        RebuildStep(blocks, b);
        RebuildBlock(b);
        b := b + 1;
      }
      assert blocks[..b] == blocks;
    }

    /** One turn of the block loop of `rebuildCache`. */
    method RebuildBlock(b: nat)
      requires b < |blocks| && RebuildDefined(blocks) && View() == Rebuild(blocks[..b])
      modifies `blockIds, `txMap, `spent, `outputs, `msigs
      ensures View() == AddBlock(Rebuild(blocks[..b]), b, blocks[b])
    {
      hide RebuildDefined, Rebuild, AddTxs, AddTx;
      ghost var c, txs := View(), Txs(blocks[b].transactions);
      var id := BlockHash(blocks[b].bl);
      if id !in blockIds {
        blockIds := blockIds + [id];
      }
      ghost var ids := blockIds;
      NothingAdded(c, b);
      assert txs[..0] == [];
      var t := 0;
      while t < |blocks[b].transactions|
        invariant 0 <= t <= |txs|
        invariant View() == AddTxs(c, b, txs[..t]).(blockIds := ids)
      {
        MarkableOf(blocks, b, t);
        AddTxsStep(c, b, txs, t);
        RebuildTransaction(blocks[b].transactions[t].tx, TransactionIndex(b, t), AddTxs(c, b, txs[..t]));
        t := t + 1;
      }
      assert txs[..t] == txs;
    }

    /** One turn of the transaction loop of `rebuildCache`. */
    method RebuildTransaction(tx: Transaction, idx: TransactionIndex, ghost c: Cache)
      requires InRange(msigs, MsigRefs(tx.inputs)) && View() == c.(blockIds := blockIds)
      modifies `txMap, `spent, `outputs, `msigs
      ensures View() == AddTx(c, idx, tx).(blockIds := blockIds)
    {
      if TxHash(tx) !in txMap {
        txMap := txMap[TxHash(tx) := idx];
      }
      var i := 0;
      while i < |tx.inputs|
        invariant 0 <= i <= |tx.inputs| && spent == old(spent) + KeyImages(tx.inputs[..i])
        invariant txMap == Insert(old(txMap), TxHash(tx), idx) && outputs == old(outputs) && msigs == old(msigs)
      {
        FormatUtils.KeyImagesStep(tx.inputs, i);
        if tx.inputs[i].KeyInput? {
          spent := spent + {tx.inputs[i].keyImage};
        }
        i := i + 1;
      }
      assert tx.inputs[..i] == tx.inputs;
      MarkUsed(tx.inputs);
      var _ := AppendOutputs(tx.outputs, idx);
    }

    /**
     The clearing part of `resetAndSetGenesisBlock`. It forgets neither the multisignature outputs nor the
     running transaction number, so the empty chain is consistent exactly when both were still untouched.
     */
    method Reset()
      modifies `blocks, `blockIds, `txMap, `spent, `outputs, `alts, payments, timestamps, generated
      ensures blocks == [] && alts == map[]
      ensures Consistent() <==> old(msigs) == map[] && old(generated.lastGeneratedTxNumber) == 0
      ensures old(Consistent()) && old(blocks) != [] ==> !Consistent()
    {
      blocks, blockIds, txMap, spent, alts, outputs := [], [], map[], {}, map[], map[];
      payments.Clear();
      timestamps.Clear();
      generated.Clear();
    }

    /** `check_tx_semantic` and `add_new_tx`: a transaction that passes and is not confirmed enters the pool. */
    method AddToPool(tx: Transaction) returns (ok: bool)
      requires Valid()
      modifies `pool
      ensures Valid()
      ensures ok <==> FormatUtils.Admissible(tx, env.shapeOk, env.inDomain)
      ensures pool == if ok && TxHash(tx) !in txMap then old(pool)[TxHash(tx) := tx] else old(pool)
    {
      hide ChainOk, Rebuild, Consistent;
      ok := FormatUtils.CheckTxSemantic(tx, env.shapeOk, env.inDomain);
      if ok && TxHash(tx) !in txMap && TxHash(tx) !in pool {
        pool := pool[TxHash(tx) := tx];
      }
    }

    // ---- Switching chains ----

    /**
     `rollback_blockchain_switching`: pops the failed branch down to `height` and pushes the original blocks
     again. Every push succeeds and the original block list comes back.
     */
    method RollbackBlockchainSwitching(original: seq<Block>, height: nat, ghost target: seq<BlockEntry>,
                                       ghost total: set<Hash>) returns (ok: bool)
      requires Valid() && ChainOk(env, target)
      requires 1 <= height <= |blocks| && height <= |target| && blocks[..height] == target[..height]
      requires original == Bls(target[height..])
      requires TxSet(Bls(target[height..])) <= total
      requires pool.Keys + TxSet(Bls(blocks[height..])) == total && NothingBack(blocks, height)
      modifies `blocks, `blockIds, `txMap, `spent, `outputs, `msigs, `sizeLimit, `pool, payments, timestamps, generated
      ensures ok && Valid() && blocks == target
      ensures pool.Keys == total - TxSet(Bls(target[height..]))
    {
      hide ChainOk, Rebuild, VerdictOf, TxSet, HashSet, Named, PoolOk, Apart, Consistent, Available, NamesTxs;
      hide ZoneStored, ConsistentBut, Consumed, Bls, Cleared, RejectClears, Restores, NextSizeLimit;
      ghost var failed := blocks;
      PopDownTo(height);
      FlagsBack(Consumed(failed[height..]));
      assert blocks == target[..height];
      assert blocks[height..] == [] && Bls([]) == [] && target[height..height] == [];
      NoTxs();
      var k := 0;
      while k < |original|
        invariant 0 <= k <= |original| && Valid() && blocks == target[..height + k]
        invariant pool.Keys == total - TxSet(Bls(target[height..height + k]))
      {
        ViewTxMap();
        AcceptedAgain(env, target, height + k);
        AvailableAgain(env, target, height, height + k, pool, total);
        var r := PushBlock(original[k]);
        if r != Added {
          return false;
        }
        k := k + 1;
      }
      assert target[..height + k] == target && target[height..height + k] == target[height..];
      ok := true;
    }

    /** The first loop of `rollback_blockchain_switching`: the blocks from `height` up are popped. */
    method PopDownTo(height: nat)
      requires Valid() && 1 <= height <= |blocks|
      modifies `blocks, `blockIds, `txMap, `spent, `outputs, `msigs, `sizeLimit, `pool, payments, timestamps, generated
      ensures ValidBut(Consumed(old(blocks)[height..])) && blocks == old(blocks)[..height]
      ensures pool.Keys == old(pool.Keys) + TxSet(Bls(old(blocks)[height..]))
    {
      hide ChainOk, Rebuild, TxSet, HashSet, Named, PoolOk, Apart, Consistent, ConsistentBut, Consumed;
      ghost var failed := blocks;
      NothingCleared();
      NothingConsumed(failed);
      assert failed[|failed|..] == [] && Bls([]) == [];
      NoTxs();
      while |blocks| > height
        invariant height <= |blocks| <= |failed| && blocks == failed[..|blocks|]
        invariant ValidBut(Consumed(failed[|blocks|..]))
        invariant pool.Keys == old(pool.Keys) + TxSet(Bls(failed[|blocks|..]))
      {
        ghost var n := |blocks| - 1;
        Disconnect(failed, |blocks|);
        FlagsBack(Consumed(failed[n + 1..]));
        LastNames();
        ConsumedOne(failed, n);
        RemovedTogether(Consumed(failed[n + 1..]), MsigRefs(TxsInputs(Txs(failed[n].transactions))));
        PopBlock(Consumed(failed[|blocks|..]));
      }
    }

    lemma {:induction false} LastNames()
      requires ChainOk(env, blocks) && blocks != []
      ensures Named(LastOf(blocks).bl.txHashes).Keys == HashSet(LastOf(blocks).bl.txHashes)
    {
      hide ChainOk, Rebuild;
      LastBlockPooled(env, blocks);
      NamedKeys(LastOf(blocks).bl);
    }

    /**
     The transaction comparison of `switch_to_alternative_blockchain`. The first loop counts an unsigned index down to
     `split`; with a split of 0 the index wraps past 0 and the block vector throws, which is the result `None`.
     */
    method LacksTransaction(split: nat, branch: seq<Block>) returns (lacks: Option<bool>)
      requires split < |blocks|
      ensures lacks == None <==> split == 0
      ensures lacks.Some? ==> (lacks.value <==> !(TxSet(Bls(blocks[split..])) <= TxSet(branch)))
    {
      var mainTxs, altTxs := [], [];
      var i: int := |blocks| - 1;
      assert blocks[i + 1..] == [] && Bls(blocks[i + 1..]) == [] && branch[..0] == [];
      NoTxs();
      while i < 0 || i >= split // an index below 0 has wrapped to the largest one
        invariant split <= i + 1 <= |blocks|
        invariant HashSet(mainTxs) == TxSet(Bls(blocks[i + 1..]))
        decreases i
      {
        if i < 0 {
          return None;
        }
        Disconnect(blocks, i + 1);
        HashSetConcat(mainTxs, blocks[i].bl.txHashes);
        mainTxs := mainTxs + blocks[i].bl.txHashes;
        i := i - 1;
      }
      var k := 0;
      while k < |branch|
        invariant 0 <= k <= |branch|
        invariant HashSet(altTxs) == TxSet(branch[..k])
      {
        assert branch[..k + 1] == branch[..k] + [branch[k]];
        TxSetConcat(branch[..k], [branch[k]]);
        TxSetOne(branch[k]);
        HashSetConcat(altTxs, branch[k].txHashes);
        altTxs := altTxs + branch[k].txHashes;
        k := k + 1;
      }
      assert branch[..k] == branch;
      hide TxSet;
      var m := 0;
      while m < |mainTxs|
        invariant 0 <= m <= |mainTxs|
        invariant forall x :: 0 <= x < m ==> mainTxs[x] in HashSet(altTxs)
      {
        if mainTxs[m] !in altTxs {
          assert mainTxs[m] in HashSet(mainTxs) && mainTxs[m] !in HashSet(altTxs);
          return Some(true);
        }
        m := m + 1;
      }
      lacks := Some(false);
    }

    /**
     `switch_to_alternative_blockchain` without the re-registration of the old chain: all or nothing. On
     success the chain is the old prefix below the split followed by the branch, and no confirmed transaction
     is lost; on every other exit the block list, the pool and every index are what they were. It throws exactly for a
     branch that starts at height 0, which `handle_alternative_block` never passes on.
     */
    method SwitchToAlternative(altChain: seq<AltEntry>) returns (r: SwitchResult)
      requires Valid()
      requires SwitchClean(env, blocks, pool.Keys, altChain)
      modifies `blocks, `blockIds, `txMap, `spent, `outputs, `msigs, `sizeLimit, `pool, `alts, payments, timestamps
      modifies generated
      ensures Valid() && State() == LedgerRun.Moved(env, old(State()), altChain)
      ensures r == Switched <==> Switchable(env, old(blocks), old(pool.Keys), altChain)
      ensures r == IndexThrew <==> SwitchAllowed(env, old(blocks), altChain) && altChain[0].height == 0
      ensures r == Refused <==> !MaySwitch(env, old(blocks), altChain) && r != IndexThrew
      ensures r != Switched ==> blocks == old(blocks) && pool == old(pool)
      ensures r == Switched ==> SwitchedTo(old(blocks), blocks, altChain)
      ensures TxSet(Bls(old(blocks))) <= TxSet(Bls(blocks))
    {
      hide ChainOk, Rebuild, TxSet, PoolOk, Apart, Consistent, BranchClean, BranchIds, Connect, NothingBack, Bls;
      hide Branch, FreeAt;
      if altChain == [] {
        return Refused;
      }
      var split, branch := altChain[0].height, Branch(altChain);
      if |blocks| <= split || !env.reorgOk(blocks, branch) {
        return Refused;
      }
      var lacks := LacksTransaction(split, branch);
      if lacks.None? {
        return IndexThrew;
      }
      if lacks.value {
        return Refused;
      }
      var connected := Reorganise(branch, split);
      EraseBranch(altChain, if connected < |branch| then connected else 0);
      if connected < |branch| {
        return RolledBack;
      }
      assert altChain[0..] == altChain;
      assert Bls(blocks) == Bls(blocks[..split]) + Bls(blocks[split..]);
      KeepsConfirmed(old(blocks), split, branch, blocks);
      r := Switched;
    }

    /** The disconnect and connect loops, with the rollback when a block of the branch is refused. */
    method Reorganise(branch: seq<Block>, split: nat) returns (connected: nat)
      requires Valid() && 1 <= split < |blocks| && NothingBack(blocks, split)
      requires BranchClean(env, blocks[..split], FreeAt(blocks, pool.Keys, split), branch)
      requires var c := Connect(env, blocks[..split], FreeAt(blocks, pool.Keys, split), branch);
               c.count < |branch| ==> NothingBack(c.blocks, split)
      modifies `blocks, `blockIds, `txMap, `spent, `outputs, `msigs, `sizeLimit, `pool, payments, timestamps, generated
      ensures Valid()
      ensures var c := Connect(env, old(blocks)[..split], FreeAt(old(blocks), old(pool.Keys), split), branch);
              && connected == c.count
              && if connected < |branch| then blocks == old(blocks) && pool == old(pool)
                 else blocks == c.blocks && pool.Keys == c.free
      ensures connected == |branch| ==>
                split <= |blocks| && blocks[..split] == old(blocks)[..split] && Bls(blocks[split..]) == branch
    {
      hide ChainOk, Rebuild, TxSet, PoolOk, Apart, Consistent, ConsistentBut, BranchClean, Connect, Consumed;
      ghost var target := blocks;
      ghost var total := FreeAt(target, pool.Keys, split);
      ViewTxMap();
      PoolDisjoint(env, pool, target, split);
      var disconnected := DisconnectTo(split);
      FlagsBack(Consumed(target[split..]));
      connected := ConnectBranch(branch, split, target, total);
      if connected < |branch| {
        var _ := RollbackBlockchainSwitching(disconnected, split, target, total);
        SamePool(pool, old(pool));
      } else {
        assert branch[..connected] == branch;
      }
    }

    /** The disconnect loop: the blocks from `split` up, in order, and their transactions back in the pool. */
    method DisconnectTo(split: nat) returns (disconnected: seq<Block>)
      requires Valid() && 1 <= split <= |blocks|
      modifies `blocks, `blockIds, `txMap, `spent, `outputs, `msigs, `sizeLimit, `pool, payments, timestamps, generated
      ensures ValidBut(Consumed(old(blocks)[split..])) && blocks == old(blocks)[..split]
      ensures disconnected == Bls(old(blocks)[split..])
      ensures pool.Keys == old(pool.Keys) + TxSet(Bls(old(blocks)[split..]))
    {
      hide ChainOk, Rebuild, TxSet, HashSet, Named, PoolOk, Apart, Consistent, ConsistentBut, Consumed;
      ghost var target := blocks;
      NothingCleared();
      NothingConsumed(target);
      disconnected := [];
      assert target[|target|..] == [] && Bls([]) == [];
      NoTxs();
      while |blocks| > split
        invariant split <= |blocks| <= |target| && blocks == target[..|blocks|]
        invariant ValidBut(Consumed(target[|blocks|..]))
        invariant disconnected == Bls(target[|blocks|..])
        invariant pool.Keys == old(pool.Keys) + TxSet(Bls(target[|blocks|..]))
      {
        ghost var n := |blocks| - 1;
        Disconnect(target, |blocks|);
        FlagsBack(Consumed(target[n + 1..]));
        LastNames();
        ConsumedOne(target, n);
        RemovedTogether(Consumed(target[n + 1..]), MsigRefs(TxsInputs(Txs(target[n].transactions))));
        disconnected := [LastOf(blocks).bl] + disconnected;
        PopBlock(Consumed(target[|blocks|..]));
      }
    }

    /** The connect loop: pushes the branch until a block is refused; `k` blocks were added. */
    method ConnectBranch(branch: seq<Block>, split: nat, ghost target: seq<BlockEntry>, ghost total: set<Hash>)
      returns (k: nat)
      requires Valid() && split <= |target| && blocks == target[..split] && pool.Keys == total
      requires BranchClean(env, blocks, total, branch)
      modifies `blocks, `blockIds, `txMap, `spent, `outputs, `msigs, `sizeLimit, `pool, payments, timestamps, generated
      ensures Valid() && k <= |branch| && |blocks| == split + k
      ensures blocks[..split] == target[..split] && Bls(blocks[split..]) == branch[..k]
      ensures pool.Keys + TxSet(Bls(blocks[split..])) == total
      ensures Connection(blocks, pool.Keys, k) == Connect(env, target[..split], total, branch)
    {
      hide ChainOk, Rebuild, TxSet, HashSet, PoolOk, Apart, Consistent, BranchClean, VerdictOf, Available;
      hide NamesTxs, Connect, ZoneStored, Restores, RejectClears, Bls, NextSizeLimit, Cleared;
      k := 0;
      assert blocks[split..] == [] && Bls([]) == [] && branch[0..] == branch;
      NoTxs();
      while k < |branch|
        invariant Valid() && 0 <= k <= |branch| && |blocks| == split + k
        invariant blocks[..split] == target[..split] && Bls(blocks[split..]) == branch[..k]
        invariant pool.Keys + TxSet(Bls(blocks[split..])) == total
        invariant BranchClean(env, blocks, pool.Keys, branch[k..])
        invariant var c := Connect(env, blocks, pool.Keys, branch[k..]);
                  c.(count := c.count + k) == Connect(env, target[..split], total, branch)
      {
        ghost var before, free := blocks, pool;
        TakesAvailable(pool, branch[k]);
        ConnectStep(env, blocks, pool.Keys, branch, k);
        var r := PushBlock(branch[k]);
        if r != Added {
          return;
        }
        AcceptedBlock(env, before, branch[k]);
        ConnectOne(before, split, LastOf(blocks));
        TakenFrom(free, branch[k].txHashes);
        k := k + 1;
      }
      NothingToConnect(env, blocks, pool.Keys);
      assert branch[k..] == [];
    }

    /** Erases the entries of the branch from position `k` on. */
    method EraseBranch(altChain: seq<AltEntry>, k: nat)
      requires k <= |altChain|
      modifies `alts
      ensures alts == old(alts) - BranchIds(altChain[k..])
    {
      var i := k;
      assert altChain[k..k] == [];
      while i < |altChain|
        invariant k <= i <= |altChain|
        invariant alts == old(alts) - BranchIds(altChain[k..i])
      {
        assert altChain[k..i + 1] == altChain[k..i] + [altChain[i]];
        BranchIdsStep(altChain[k..i], altChain[i]);
        alts := alts - {BlockHash(altChain[i].bl)};
        i := i + 1;
      }
      assert altChain[k..i] == altChain[k..];
    }

    // ---- Receiving blocks ----

    /** `handle_alternative_block`: goes over to the branch exactly if it is preferred and can be switched to. */
    method HandleAlternativeBlock(b: Block) returns (r: AddResult)
      requires Valid() && AltsOk(alts) && LedgerRun.BranchedClean(env, State(), b)
      modifies `blocks, `blockIds, `txMap, `spent, `outputs, `msigs, `sizeLimit, `pool, `alts, payments, timestamps
      modifies generated
      ensures Valid() && AltsOk(alts) && State() == LedgerRun.Branched(env, old(State()), b)
      ensures r != SwitchedChain ==> blocks == old(blocks) && pool == old(pool)
      ensures r == SwitchedChain <==> GoesOver(env, old(blocks), old(pool.Keys), old(alts), b)
      ensures r == Orphaned <==>
                && env.altHeaderOk(old(blocks), old(pool.Keys), b)
                && b.previous !in old(blockIds) && b.previous !in old(alts)
      ensures r != AddedToMain && r != AlreadyExists
      ensures TxSet(Bls(old(blocks))) <= TxSet(Bls(blocks))
    {
      hide ChainOk, Rebuild, PoolOk, Apart, Consistent, TxSet, Candidate, AltsOk, SwitchClean, Preferred;
      hide LedgerRun.Moved;
      ghost var known := alts;
      var altChain;
      r, altChain := RegisterAlternative(b);
      if r != SwitchedChain {
        return;
      }
      CandidateShape(env, blocks, pool.Keys, known, b);
      LedgerRun.MovedAlts(env, State(), altChain);
      var switched := SwitchToAlternative(altChain);
      assert switched != IndexThrew;
      if switched != Switched {
        r := FailedCheck;
      }
    }

    lemma {:induction false} NotKnown(b: Block)
      requires IdsOf(blocks, blockIds)
      ensures blockIds == Ids(blocks)
      ensures BlockHash(b) in blockIds || BlockHash(b) in alts <==> LedgerRun.Known(State(), b)
    {
    }

    /** The checks and the registration of an alternative block; `SwitchedChain` asks for the switch to `altChain`. */
    method RegisterAlternative(b: Block) returns (r: AddResult, altChain: seq<AltEntry>)
      requires Consistent() && AltsOk(alts)
      modifies `alts
      ensures AltsOk(alts) && r in {FailedCheck, Orphaned, StoredAlternative, SwitchedChain}
      ensures r == Orphaned <==>
              env.altHeaderOk(blocks, pool.Keys, b) && b.previous !in blockIds && b.previous !in old(alts)
      ensures r == StoredAlternative || r == SwitchedChain <==> Candidate(env, blocks, pool.Keys, old(alts), b).Some?
      ensures r == FailedCheck || r == Orphaned ==> alts == old(alts)
      ensures r == StoredAlternative || r == SwitchedChain ==>
                && altChain != [] && blocks != [] && Some(altChain) == Candidate(env, blocks, pool.Keys, old(alts), b)
                && alts == old(alts)[BlockHash(b) := altChain[|altChain| - 1]]
                && (r == SwitchedChain <==> Preferred(env, blocks, altChain))
    {
      hide ChainOk, Rebuild, Consistent, Candidate, AltsOk, Linked;
      altChain := [];
      if !env.altHeaderOk(blocks, pool.Keys, b) {
        NoCandidate(b);
        return FailedCheck, altChain;
      }
      var mainPrev := FindId(blockIds, b.previous);
      if mainPrev.None? && b.previous !in alts {
        NoCandidate(b);
        return Orphaned, altChain;
      }
      var candidate := MakeBranch(b, mainPrev);
      if candidate.None? {
        return FailedCheck, altChain;
      }
      CandidateShape(env, blocks, pool.Keys, alts, b);
      altChain := candidate.value;
      var entry := altChain[|altChain| - 1];
      alts := alts[BlockHash(b) := entry];
      if !env.isCheckpoint(entry.height) && LastOf(blocks).cumulativeDifficulty >= entry.cumulativeDifficulty {
        return StoredAlternative, altChain;
      }
      r := SwitchedChain;
    }

    lemma {:induction false} NoCandidate(b: Block)
      requires Consistent() && AltsOk(alts)
      requires !env.altHeaderOk(blocks, pool.Keys, b) || (b.previous !in blockIds && b.previous !in alts)
      ensures Candidate(env, blocks, pool.Keys, alts, b) == None
    {
      hide ChainOk, Rebuild, Consistent, Collected;
      IdsListed();
      NotKnown(b);
    }

    /** The checks between the orphan test and the registration, and the branch that the block then ends. */
    method MakeBranch(b: Block, mainPrev: Option<nat>) returns (candidate: Option<seq<AltEntry>>)
      requires Consistent() && AltsOk(alts) && env.altHeaderOk(blocks, pool.Keys, b)
      requires mainPrev == if b.previous in blockIds then Some(IndexIn(blockIds, b.previous)) else None
      requires b.previous in blockIds || b.previous in alts
      ensures candidate == Candidate(env, blocks, pool.Keys, alts, b)
    {
      hide ChainOk, Rebuild, Consistent, Linked, Branch, Collected, IndexIn;
      IdsListed();
      NotKnown(b);
      var altChain := CollectBranch(b.previous);
      CollectedShape(alts, b.previous);
      if altChain != [] {
        if |blocks| <= altChain[0].height || BlockHash(blocks[altChain[0].height - 1].bl) != altChain[0].bl.previous {
          return None;
        }
      }
      var difficulty := env.altDifficulty(blocks, altChain, b);
      if !env.altContextOk(blocks, Branch(altChain), b) || difficulty == 0 || BlockHash(b) in alts {
        return None;
      }
      var entry := if altChain != [] then
          AltEntry(b, alts[b.previous].height + 1, alts[b.previous].cumulativeDifficulty + difficulty)
        else
          AltEntry(b, mainPrev.value + 1, blocks[mainPrev.value].cumulativeDifficulty + difficulty);
      return Some(altChain + [entry]);
    }

    /** The stored alternatives that lead to a block, oldest first. */
    method CollectBranch(from: Hash) returns (altChain: seq<AltEntry>)
      requires AltsOk(alts)
      ensures altChain == Collected(alts, from)
    {
      altChain := [];
      var cur := from;
      while cur in alts
        invariant Collected(alts, from) == Collected(alts, cur) + altChain
        decreases cur
      {
        altChain := [alts[cur]] + altChain;
        cur := alts[cur].bl.previous;
      }
    }

    lemma {:induction false} IdsListed()
      requires Consistent()
      ensures IdsOf(blocks, blockIds)
    {
      hide ChainOk, Rebuild;
      ChainRecorded(env, blocks);
    }

    /** `addNewBlock`: the chain grows by the block, goes over to a branch, or stays; nothing confirmed is lost. */
    method AddNewBlock(b: Block) returns (r: AddResult)
      requires Valid() && AltsOk(alts) && LedgerRun.Clean(env, State(), LedgerRun.AddBlock(b))
      modifies `blocks, `blockIds, `txMap, `spent, `outputs, `msigs, `sizeLimit, `pool, `alts, payments, timestamps
      modifies generated
      ensures Valid() && AltsOk(alts) && State() == LedgerRun.Exec(env, old(State()), LedgerRun.AddBlock(b))
      ensures TxSet(Bls(old(blocks))) <= TxSet(Bls(blocks))
      ensures r == AddedToMain ==> |blocks| == |old(blocks)| + 1 && blocks[|old(blocks)|].bl == b
      ensures r == AddedToMain ==> sizeLimit == NextSizeLimit(env, blocks)
      ensures r == AlreadyExists <==> BlockHash(b) in old(blockIds) || BlockHash(b) in old(alts)
      ensures r == AddedToMain <==>
                && !LedgerRun.Known(old(State()), b) && b.previous == TailId(old(blocks))
                && Taken(env, old(blocks), old(pool.Keys), b)
      ensures r == SwitchedChain <==>
                && !LedgerRun.Known(old(State()), b) && b.previous != TailId(old(blocks))
                && GoesOver(env, old(blocks), old(pool.Keys), old(alts), b)
      ensures r != AddedToMain && r != SwitchedChain ==> blocks == old(blocks) && pool == old(pool)
    {
      hide ChainOk, Rebuild, PoolOk, Apart, Consistent, TxSet, VerdictOf, AltsOk, Candidate, Preferred, SwitchClean;
      hide NamesTxs, Available, ZoneStored, Restores, RejectClears, LedgerRun.Branched, LedgerRun.BranchedClean;
      hide GoesOver, NextSizeLimit;
      ViewTxMap();
      IdsListed();
      NotKnown(b);
      var tail := if blocks == [] then NullHash else BlockHash(LastOf(blocks).bl);
      if BlockHash(b) in blockIds || BlockHash(b) in alts {
        return AlreadyExists;
      }
      if b.previous != tail {
        r := HandleAlternativeBlock(b);
      } else {
        TakesAvailable(pool, b);
        ghost var before := blocks;
        var pushed := PushBlock(b);
        if pushed == Added {
          AcceptedBlock(env, before, b);
          ConnectOne(before, 0, LastOf(blocks));
          assert before[0..] == before && blocks[0..] == blocks;
        }
        r := if pushed == Added then AddedToMain else FailedCheck;
      }
    }

    // ---- Runs ----

    /** One command of a run. */
    method Step(cmd: LedgerRun.Command)
      requires Valid() && AltsOk(alts) && LedgerRun.Clean(env, State(), cmd)
      modifies `blocks, `blockIds, `txMap, `spent, `outputs, `msigs, `sizeLimit, `pool, `alts, payments, timestamps
      modifies generated
      ensures Valid() && AltsOk(alts) && State() == LedgerRun.Exec(env, old(State()), cmd)
    {
      hide ChainOk, Rebuild, PoolOk, Apart, Consistent, AltsOk, LedgerRun.Known, LedgerRun.BranchedClean, Consumed;
      hide CleanOn, Takes, Taken, VerdictOf, GoesOver, NextSizeLimit, TxSet, TailId;
      hide LedgerRun.Extended, LedgerRun.Branched, FormatUtils.Admissible;
      match cmd {
        case AddBlock(b) =>
          var _ := AddNewBlock(b);
        case AddTx(tx) =>
          ViewTxMap();
          var _ := AddToPool(tx);
        case PopBlock =>
          NothingCleared();
          if blocks != [] {
            ViewTxMap();
            LastNames();
            ConsumedLast(blocks);
          }
          PopBlock({});
        case RollbackTo(height) =>
          RollbackBlockchainTo(height);
      }
    }

    /**
     A whole run. In every state it passes through, all indexes are what rebuilding computes, and the state is the one
     that the commands specify; without pops and rollbacks no confirmed transaction is lost, whatever is reorganised.
     */
    method Execute(cmds: seq<LedgerRun.Command>)
      requires Valid() && AltsOk(alts) && LedgerRun.CleanAll(env, State(), cmds)
      modifies `blocks, `blockIds, `txMap, `spent, `outputs, `msigs, `sizeLimit, `pool, `alts, payments, timestamps
      modifies generated
      ensures Valid() && AltsOk(alts) && State() == LedgerRun.ExecAll(env, old(State()), cmds)
      ensures (forall i :: 0 <= i < |cmds| ==> !LedgerRun.Shrinks(cmds[i])) ==>
                TxSet(Bls(old(blocks))) <= TxSet(Bls(blocks))
    {
      hide ChainOk, Rebuild, PoolOk, Apart, Consistent, TxSet, LedgerRun.Exec, LedgerRun.Clean, LedgerRun.LedgerOk;
      ghost var start := State();
      ValidIsOk();
      assert cmds[0..] == cmds;
      for i := 0 to |cmds|
        invariant Valid() && AltsOk(alts) && LedgerRun.CleanAll(env, State(), cmds[i..])
        invariant LedgerRun.ExecAll(env, start, cmds) == LedgerRun.ExecAll(env, State(), cmds[i..])
      {
        assert cmds[i..][0] == cmds[i] && cmds[i..][1..] == cmds[i + 1..];
        Step(cmds[i]);
      }
      assert cmds[|cmds|..] == [];
      if forall i :: 0 <= i < |cmds| ==> !LedgerRun.Shrinks(cmds[i]) {
        LedgerRun.ConfirmedSurvive(env, start, cmds);
      }
    }

    /** A valid object is a sound ledger. */
    lemma {:induction false} ValidIsOk()
      requires Valid() && AltsOk(alts)
      ensures LedgerRun.LedgerOk(env, State())
    {
      hide ChainOk, Rebuild, AltsOk;
      ViewTxMap();
      PoolDisjoint(env, pool, blocks, 0);
      assert blocks[0..] == blocks;
    }
  }
}
