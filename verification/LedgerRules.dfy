/** The rules for transactions and blocks, written out over stored records, and that the checks enforce exactly them. */
module LedgerRules {
  import opened LedgerTypes
  import opened LedgerCache
  import opened LedgerChain
  import opened LedgerSteps
  import opened Reward
  import opened BlockchainIndices

  // ---- Inputs ----

  /** A stored multisignature output that the input may consume. */
  ghost predicate Consumable(env: Env, blocks: seq<BlockEntry>, u: MsigUsage, tx: Transaction, i: nat)
    requires i < |tx.inputs| && tx.inputs[i].MultisignatureInput?
  {
    && !u.isUsed
    && u.txIndex.block < |blocks|
    && u.txIndex.transaction < |blocks[u.txIndex.block].transactions|
    && var source := blocks[u.txIndex.block].transactions[u.txIndex.transaction].tx;
    && u.output < |source.outputs|
    && source.outputs[u.output].target.MultisignatureOutput?
    && env.unlocked(blocks, source.unlockTime)
    && source.outputs[u.output].target.requiredSignatureCount == tx.inputs[i].signatureCount
    && env.msigSignatures(tx, i, source.outputs[u.output].target)
  }

  /** The rule for input `i`. Ring signatures and multisignature inputs are looked at only above the checkpoint zone. */
  ghost predicate InputMeets(env: Env, blocks: seq<BlockEntry>, c: Cache, tx: Transaction, i: nat)
    requires i < |tx.inputs|
  {
    && !tx.inputs[i].BaseInput?
    && (tx.inputs[i].KeyInput? ==>
          && tx.inputs[i].outputIndexes != [] && tx.inputs[i].keyImage !in c.spent
          && (!env.inZone(|blocks|) ==> env.keyInput(blocks, c.tables.keys, tx, i) == Pass))
    && (tx.inputs[i].MultisignatureInput? && !env.inZone(|blocks|) ==>
          && tx.inputs[i].amount in c.tables.msigs
          && tx.inputs[i].outputIndex < |c.tables.msigs[tx.inputs[i].amount]|
          && Consumable(env, blocks, c.tables.msigs[tx.inputs[i].amount][tx.inputs[i].outputIndex], tx, i))
  }

  /** Looking at input `i` throws: its output is of a block that is not stored yet, or the ring check throws. */
  ghost predicate InputThrows(env: Env, blocks: seq<BlockEntry>, c: Cache, tx: Transaction, i: nat)
    requires i < |tx.inputs|
  {
    && !env.inZone(|blocks|)
    && (|| (&& tx.inputs[i].KeyInput?
            && tx.inputs[i].outputIndexes != [] && tx.inputs[i].keyImage !in c.spent
            && env.keyInput(blocks, c.tables.keys, tx, i) == Throws)
        || (&& tx.inputs[i].MultisignatureInput?
            && tx.inputs[i].amount in c.tables.msigs
            && tx.inputs[i].outputIndex < |c.tables.msigs[tx.inputs[i].amount]|
            && var u := c.tables.msigs[tx.inputs[i].amount][tx.inputs[i].outputIndex];
               !u.isUsed && u.txIndex.block >= |blocks|))
  }

  lemma {:induction false} InputExactly(env: Env, blocks: seq<BlockEntry>, c: Cache, tx: Transaction, i: nat)
    requires i < |tx.inputs|
    ensures InputVerdict(env, blocks, c, tx, i) == Pass <==> InputMeets(env, blocks, c, tx, i)
    ensures InputVerdict(env, blocks, c, tx, i) == Throws <==> InputThrows(env, blocks, c, tx, i)
  {
  }

  ghost predicate MeetUpTo(env: Env, blocks: seq<BlockEntry>, c: Cache, tx: Transaction, n: nat)
    requires n <= |tx.inputs|
  {
    forall i :: 0 <= i < n ==> InputMeets(env, blocks, c, tx, i)
  }

  ghost predicate TxMeets(env: Env, blocks: seq<BlockEntry>, c: Cache, tx: Transaction) {
    MeetUpTo(env, blocks, c, tx, |tx.inputs|)
  }

  /** Some input throws, and all before it meet the rule. */
  ghost predicate TxThrows(env: Env, blocks: seq<BlockEntry>, c: Cache, tx: Transaction) {
    exists i :: 0 <= i < |tx.inputs| && InputThrows(env, blocks, c, tx, i) && MeetUpTo(env, blocks, c, tx, i)
  }

  lemma {:induction false} InputsExactly(env: Env, blocks: seq<BlockEntry>, c: Cache, tx: Transaction, n: nat)
    requires n <= |tx.inputs|
    ensures InputsVerdict(env, blocks, c, tx, n) == Pass <==> MeetUpTo(env, blocks, c, tx, n)
    ensures InputsVerdict(env, blocks, c, tx, n) == Throws <==>
            exists i :: 0 <= i < n && InputThrows(env, blocks, c, tx, i) && MeetUpTo(env, blocks, c, tx, i)
  {
    hide InputVerdict, InputMeets, InputThrows;
    if n > 0 {
      InputsExactly(env, blocks, c, tx, n - 1);
      InputExactly(env, blocks, c, tx, n - 1);
      if MeetUpTo(env, blocks, c, tx, n - 1) {
        forall i | 0 <= i < n - 1 ensures !InputThrows(env, blocks, c, tx, i) {
          assert InputMeets(env, blocks, c, tx, i);
          InputExactly(env, blocks, c, tx, i);
        }
      }
    }
  }

  /** `checkTransactionInputs` lets a transaction through exactly if every input meets the rule. */
  lemma {:induction false} TxExactly(env: Env, blocks: seq<BlockEntry>, c: Cache, tx: Transaction)
    ensures TxVerdict(env, blocks, c, tx) == Pass <==> TxMeets(env, blocks, c, tx)
    ensures TxVerdict(env, blocks, c, tx) == Throws <==> TxThrows(env, blocks, c, tx)
  {
    InputsExactly(env, blocks, c, tx, |tx.inputs|);
  }

  // ---- Blocks ----

  /** What is checked of a block before an index is touched. */
  ghost predicate HeaderMeets(env: Env, blocks: seq<BlockEntry>, b: Block) {
    && (forall j :: 0 <= j < |blocks| ==> blocks[j].bl != b)
    && env.headerOk(blocks, b) && env.difficulty(blocks, b) != 0
    && b.previous == (if blocks == [] then NullHash else BlockHash(blocks[|blocks| - 1].bl))
    && b.base.inputs == [BaseInput(|blocks|)] && b.base.signatures == []
    && b.base.unlockTime == |blocks| + env.unlockWindow
    && SumOutputs(b.base.outputs) < TWO64
  }

  lemma {:induction false} HeaderExactly(env: Env, blocks: seq<BlockEntry>, c: Cache, b: Block)
    requires IdsOf(blocks, c.blockIds)
    ensures HeaderAccepted(env, blocks, c, b) <==> HeaderMeets(env, blocks, b)
  {
    hide SumOutputs;
    if HeaderMeets(env, blocks, b) {
      assert BlockHash(b) !in c.blockIds;
    } else if forall j :: 0 <= j < |blocks| ==> blocks[j].bl != b {
      assert |b.base.inputs| == 1 && b.base.inputs[0] == BaseInput(|blocks|) ==> b.base.inputs == [BaseInput(|blocks|)];
    } else {
      var j :| 0 <= j < |blocks| && blocks[j].bl == b;
      assert c.blockIds[j] == BlockHash(b);
    }
  }

  /** Transaction `k` of the block meets the rule on what the ones before it left. */
  ghost predicate ListedMeets(env: Env, blocks: seq<BlockEntry>, b: Block, k: nat)
    requires NamesTxs(b) && k < |BlockTxs(b)|
  {
    TxMeets(env, blocks, AddTxs(Rebuild(blocks), |blocks|, BlockTxs(b)[..k]), BlockTxs(b)[k])
  }

  ghost predicate ListedThrows(env: Env, blocks: seq<BlockEntry>, b: Block, k: nat)
    requires NamesTxs(b) && k < |BlockTxs(b)|
  {
    TxThrows(env, blocks, AddTxs(Rebuild(blocks), |blocks|, BlockTxs(b)[..k]), BlockTxs(b)[k])
  }

  ghost predicate AllListedMeet(env: Env, blocks: seq<BlockEntry>, b: Block, n: nat)
    requires NamesTxs(b) && n <= |BlockTxs(b)|
  {
    forall k :: 0 < k < n ==> ListedMeets(env, blocks, b, k)
  }

  lemma {:induction false} ListedExactly(env: Env, blocks: seq<BlockEntry>, b: Block, n: nat)
    requires NamesTxs(b) && n <= |BlockTxs(b)|
    ensures var v := TxsVerdict(env, blocks, Rebuild(blocks), BlockTxs(b), n);
            && (v == Pass <==> AllListedMeet(env, blocks, b, n))
            && (v == Throws <==>
                exists k :: 0 < k < n && ListedThrows(env, blocks, b, k) && AllListedMeet(env, blocks, b, k))
  {
    hide TxVerdict, Rebuild, AddTxs, TxMeets, TxThrows;
    if n > 1 {
      ListedExactly(env, blocks, b, n - 1);
      var before := AddTxs(Rebuild(blocks), |blocks|, BlockTxs(b)[..n - 1]);
      TxExactly(env, blocks, before, BlockTxs(b)[n - 1]);
      assert ListedMeets(env, blocks, b, n - 1) <==> TxMeets(env, blocks, before, BlockTxs(b)[n - 1]);
      assert ListedThrows(env, blocks, b, n - 1) <==> TxThrows(env, blocks, before, BlockTxs(b)[n - 1]);
      if AllListedMeet(env, blocks, b, n - 1) {
        forall k | 0 < k < n - 1 ensures !ListedThrows(env, blocks, b, k) {
          assert ListedMeets(env, blocks, b, k);
          TxExactly(env, blocks, AddTxs(Rebuild(blocks), |blocks|, BlockTxs(b)[..k]), BlockTxs(b)[k]);
        }
      }
    }
  }

  // ---- The reward ----

  /** The median that the size of the next block is compared with. */
  function Median(env: Env, blocks: seq<BlockEntry>): nat {
    var median, zone := env.sizeMedian(LastSizes(blocks, env.rewardWindow)), env.fullRewardZone(|blocks|);
    if median < zone then zone else median
  }

  /** The reward due: `amount` as it is up to the median size, scaled above it. */
  ghost function Due(env: Env, blocks: seq<BlockEntry>, b: Block, size: nat, fee: uint64): int {
    var base, m := env.baseReward(blocks, b, CoinsOf(blocks)), Median(env, blocks);
    if size <= m || m == 0 then base + fee
    else Scaled(base, m, size) + (if env.penalizeFee(|blocks|) then Scaled(fee, m, size) else fee)
  }

  lemma {:induction false} MinerExactly(env: Env, blocks: seq<BlockEntry>, b: Block, size: nat, fee: uint64)
    ensures var m := Median(env, blocks);
            && (MinerValidated(env, blocks, b, size, fee) <==>
                  size <= 2 * m && Wrap64(SumOutputs(b.base.outputs)) == Wrap64(Due(env, blocks, b, size, fee)))
            && (size <= 2 * m ==>
                  && RewardFor(env, blocks, b, size, fee).Some?
                  && RewardFor(env, blocks, b, size, fee).value.emission
                     == Wrap64(Due(env, blocks, b, size, fee) - fee))
  {
    hide LastSizes, SumOutputs, Scaled, BlockReward, Wrap64;
    var base := env.baseReward(blocks, b, CoinsOf(blocks));
    RewardExactly(base, env.fullRewardZone(|blocks|), env.sizeMedian(LastSizes(blocks, env.rewardWindow)), size, fee,
                  env.penalizeFee(|blocks|));
    WrapSmall(base);
  }

  /** Above the median a coinbase that pays out the whole positive base reward and the fees is refused. */
  lemma {:induction false} FullRewardRefused(env: Env, blocks: seq<BlockEntry>, b: Block, size: nat, fee: uint64)
    requires var base := env.baseReward(blocks, b, CoinsOf(blocks));
             0 < base && base + fee < TWO64 && SumOutputs(b.base.outputs) == base + fee
    requires Median(env, blocks) < size
    ensures !MinerValidated(env, blocks, b, size, fee)
  {
    hide LastSizes, SumOutputs;
    var base := env.baseReward(blocks, b, CoinsOf(blocks));
    RewardAntitone(base, env.fullRewardZone(|blocks|), env.sizeMedian(LastSizes(blocks, env.rewardWindow)), size, size,
                   fee, env.penalizeFee(|blocks|));
    WrapSmall(base + fee);
    hide BlockReward, Wrap64;
  }

  /** The sizes whose median counts are those of the last blocks, in order. */
  lemma {:induction false} LastSizesAre(blocks: seq<BlockEntry>, count: nat)
    ensures var r := LastSizes(blocks, count);
            && |r| == (if count < |blocks| then count else |blocks|)
            && forall i :: 0 <= i < |r| ==> r[i] == blocks[|blocks| - |r| + i].cumulativeSize
  {
  }

  /** An accepted block keeps within the limit that was stored for it. */
  lemma {:induction false} LimitKept(env: Env, blocks: seq<BlockEntry>, b: Block)
    requires NamesTxs(b) && VerdictOf(env, blocks, b).Accept?
    ensures SumSizes(env, BlockTxs(b)) <= NextSizeLimit(env, blocks) == 2 * Median(env, blocks)
  {
    MinerExactly(env, blocks, b, SumSizes(env, BlockTxs(b)), Wrap64(SumFees(BlockTxs(b))));
    hide Rebuild, TxsVerdict, HeaderAccepted, MinerValidated, SumSizes, SumFees, Due, LastSizes, EntryTxs;
  }

  /** The sums over a block grow by what each transaction adds; the fee of the coinbase does not count. */
  lemma {:induction false} SumsAppend(env: Env, txs: seq<Transaction>, tx: Transaction)
    ensures SumSizes(env, []) == 0 && SumSizes(env, txs + [tx]) == SumSizes(env, txs) + env.txSize(tx)
    ensures SumFees([tx]) == 0
    ensures txs != [] ==>
              SumFees(txs + [tx]) == SumFees(txs) + SumInputs(tx.inputs) - SumOutputs(tx.outputs)
  {
    hide SumInputs, SumOutputs;
    assert (txs + [tx])[..|txs|] == txs;
  }

  lemma {:induction false} AmountsAppend(ins: seq<Input>, i: Input, outs: seq<Output>, o: Output)
    ensures SumInputs([]) == 0 && SumOutputs([]) == 0
    ensures SumInputs(ins + [i]) == SumInputs(ins) + (if i.BaseInput? then 0 else i.amount)
    ensures SumOutputs(outs + [o]) == SumOutputs(outs) + o.amount
  {
    assert (ins + [i])[..|ins|] == ins && (outs + [o])[..|outs|] == outs;
  }

  // ---- The verdict ----

  /** Every rule for a block on top of a stored chain. */
  ghost predicate BlockMeets(env: Env, blocks: seq<BlockEntry>, b: Block)
    requires NamesTxs(b)
  {
    var size, fee := SumSizes(env, BlockTxs(b)), Wrap64(SumFees(BlockTxs(b)));
    && HeaderMeets(env, blocks, b)
    && AllListedMeet(env, blocks, b, |BlockTxs(b)|)
    && size <= env.maxBlockSize(|blocks|)
    && size <= 2 * Median(env, blocks)
    && Wrap64(SumOutputs(b.base.outputs)) == Wrap64(Due(env, blocks, b, size, fee))
  }

  /** `pushBlock` accepts a block exactly if it meets every rule; it is also said when it takes the other two exits. */
  lemma {:induction false} AcceptExactly(env: Env, blocks: seq<BlockEntry>, b: Block)
    requires ChainOk(env, blocks) && NamesTxs(b)
    ensures var v, all := VerdictOf(env, blocks, b), |BlockTxs(b)|;
            && (v.Accept? <==> BlockMeets(env, blocks, b))
            && (v == Oversized <==>
                  && HeaderMeets(env, blocks, b) && AllListedMeet(env, blocks, b, all)
                  && SumSizes(env, BlockTxs(b)) > env.maxBlockSize(|blocks|))
            && (v == Threw <==>
                  && HeaderMeets(env, blocks, b)
                  && exists k :: 0 < k < all && ListedThrows(env, blocks, b, k) && AllListedMeet(env, blocks, b, k))
  {
    hide ChainOk, Rebuild, HeaderAccepted, HeaderMeets, TxsVerdict, ListedMeets, ListedThrows, AllListedMeet, Median;
    hide Due;
    hide SumSizes, SumFees, SumOutputs, Wrap64, RewardFor, EntryTxs, MinerValidated;
    ChainRecorded(env, blocks);
    HeaderExactly(env, blocks, Rebuild(blocks), b);
    ListedExactly(env, blocks, b, |BlockTxs(b)|);
    MinerExactly(env, blocks, b, SumSizes(env, BlockTxs(b)), Wrap64(SumFees(BlockTxs(b))));
  }

  /** What is stored of an accepted block. */
  lemma {:induction false} EntryExactly(env: Env, blocks: seq<BlockEntry>, b: Block)
    requires NamesTxs(b) && VerdictOf(env, blocks, b).Accept?
    ensures var e := VerdictOf(env, blocks, b).entry;
            var size, fee := SumSizes(env, BlockTxs(b)), Wrap64(SumFees(BlockTxs(b)));
            && e.bl == b && e.height == |blocks| && e.cumulativeSize == size && Txs(e.transactions) == BlockTxs(b)
            && e.cumulativeDifficulty
               == (if blocks == [] then 0 else blocks[|blocks| - 1].cumulativeDifficulty) + env.difficulty(blocks, b)
            && e.generatedCoins
               == Wrap64((if blocks == [] then 0 else blocks[|blocks| - 1].generatedCoins)
                         + Wrap64(Due(env, blocks, b, size, fee) - fee))
  {
    hide Rebuild, HeaderAccepted, TxsVerdict, Median, Due, SumSizes, SumFees, SumOutputs, Wrap64, RewardFor, EntryTxs;
    EntryTxsAre(Rebuild(blocks), |blocks|, BlockTxs(b));
    MinerExactly(env, blocks, b, SumSizes(env, BlockTxs(b)), Wrap64(SumFees(BlockTxs(b))));
  }

  // ---- Stored chains ----

  /** In every accepted chain each listed transaction met the rule for its inputs at its turn. */
  lemma {:induction false} ListedMetRules(env: Env, blocks: seq<BlockEntry>, j: nat, k: nat)
    requires ChainAccepted(env, blocks) && j < |blocks| && 0 < k < |blocks[j].transactions|
    ensures var txs := Txs(blocks[j].transactions);
            TxMeets(env, blocks[..j], AddTxs(Rebuild(blocks[..j]), j, txs[..k]), txs[k])
  {
    hide Rebuild, AddTxs, TxMeets, TxsVerdict;
    assert BlockAccepted(env, blocks[..j], blocks[j]);
    AcceptedEntry(env, blocks[..j], blocks[j]);
    hide BlockAccepted;
    var b := blocks[j].bl;
    ListedExactly(env, blocks[..j], b, |BlockTxs(b)|);
    assert ListedMeets(env, blocks[..j], b, k);
  }

  ghost predicate StoredAt(blocks: seq<BlockEntry>, j: nat, k: nat, h: Hash) {
    j < |blocks| && k < |blocks[j].transactions| && h == TxHash(blocks[j].transactions[k].tx)
  }

  /** The map records `h` exactly if it is stored, and exactly where. */
  ghost predicate Records(blocks: seq<BlockEntry>, m: map<Hash, TransactionIndex>, h: Hash) {
    && (h in m <==> exists j: nat, k: nat :: StoredAt(blocks, j, k, h))
    && forall j: nat, k: nat :: StoredAt(blocks, j, k, h) ==> h in m && m[h] == TransactionIndex(j, k)
  }

  /** The transaction map records exactly the stored transactions, each where it is stored. */
  lemma {:induction false} RecordedAt(env: Env, blocks: seq<BlockEntry>, h: Hash)
    requires ChainOk(env, blocks)
    ensures Records(blocks, Rebuild(blocks).txMap, h)
  {
    if blocks != [] {
      var n := |blocks| - 1;
      var below, txs := blocks[..n], Txs(blocks[n].transactions);
      assert Rebuild(blocks).txMap == AddTxs(Rebuild(below), n, txs).txMap;
      hide Rebuild, AddTxs, Records, StoredAt, AllPushable;
      ChainPrefix(env, blocks, n);
      OkAt(env, blocks, n);
      hide ChainOk, BlockOk, BlockAccepted;
      RecordedAt(env, below, h);
      StoredArePushable(env, below, blocks[n]);
      AddTxsAt(Rebuild(below), n, txs, h);
      RecordsMore(blocks, Rebuild(below).txMap, Rebuild(blocks).txMap, h);
    }
  }

  lemma {:induction false} RecordsMore(blocks: seq<BlockEntry>, m: map<Hash, TransactionIndex>,
                                       more: map<Hash, TransactionIndex>, h: Hash)
    requires blocks != [] && Records(blocks[..|blocks| - 1], m, h)
    requires var n, txs := |blocks| - 1, Txs(blocks[|blocks| - 1].transactions);
             && (h in more <==> h in m || exists k: nat :: Lists(txs, k, h))
             && (h in m ==> more[h] == m[h])
             && forall k: nat :: Lists(txs, k, h) ==> h !in m && more[h] == TransactionIndex(n, k)
    ensures Records(blocks, more, h)
  {
    var n := |blocks| - 1;
    var below, txs := blocks[..n], Txs(blocks[n].transactions);
    forall j: nat, k: nat
      ensures StoredAt(blocks, j, k, h) <==> StoredAt(below, j, k, h) || (j == n && Lists(txs, k, h))
    {
      assert j < n ==> blocks[j] == below[j];
    }
    hide StoredAt, Lists, Txs;
    if k: nat :| Lists(txs, k, h) {
      assert StoredAt(blocks, n, k, h);
    } else if h in m {
      var j: nat, k: nat :| StoredAt(below, j, k, h);
      assert StoredAt(blocks, j, k, h);
    }
  }

  ghost predicate Lists(txs: seq<Transaction>, k: nat, h: Hash) {
    k < |txs| && h == TxHash(txs[k])
  }

  lemma {:induction false} AddTxsAt(c: Cache, height: nat, txs: seq<Transaction>, h: Hash)
    requires AllPushable(c, height, txs)
    ensures var m := AddTxs(c, height, txs).txMap;
            && (h in m <==> h in c.txMap || exists k: nat :: Lists(txs, k, h))
            && (h in c.txMap ==> m[h] == c.txMap[h])
            && forall k: nat :: Lists(txs, k, h) ==> h !in c.txMap && m[h] == TransactionIndex(height, k)
  {
    if txs != [] {
      var n := |txs| - 1;
      assert PushableAt(c, height, txs, n);
      forall k | 0 <= k < n ensures PushableAt(c, height, txs[..n], k) {
        assert PushableAt(c, height, txs, k) && txs[..n][..k] == txs[..k];
      }
      AddTxsAt(c, height, txs[..n], h);
      assert Lists(txs, n, h) <==> h == TxHash(txs[n]);
      forall k: nat ensures Lists(txs, k, h) <==> Lists(txs[..n], k, h) || (k == n && h == TxHash(txs[n])) {
      }
    }
  }

  /** 1 if the map records `h` and its transaction carries the payment id, and 0 otherwise. */
  ghost function PaymentCount(pid: PaymentIdOf, m: map<Hash, TransactionIndex>, id: nat, h: Hash): nat {
    if h in m && h.TxHash? && pid(h.tx) == Some(id) then 1 else 0
  }

  /** The payment index names exactly the stored transactions with a payment id, each once. */
  lemma {:induction false} PaymentsExactly(env: Env, pid: PaymentIdOf, blocks: seq<BlockEntry>, id: nat, h: Hash)
    requires ChainOk(env, blocks)
    ensures RebuildPayments(pid, blocks)[(id, h)] == PaymentCount(pid, Rebuild(blocks).txMap, id, h)
  {
    if blocks != [] {
      var n := |blocks| - 1;
      var below, txs := blocks[..n], Txs(blocks[n].transactions);
      assert Rebuild(blocks).txMap == AddTxs(Rebuild(below), n, txs).txMap;
      hide Rebuild, AddTxs, AllPushable, PaymentCount, PaymentsOf;
      ChainPrefix(env, blocks, n);
      OkAt(env, blocks, n);
      hide ChainOk, BlockOk, BlockAccepted;
      PaymentsExactly(env, pid, below, id, h);
      StoredArePushable(env, below, blocks[n]);
      PaymentsAdded(pid, Rebuild(below), n, txs, id, h);
    }
  }

  lemma {:induction false} PaymentsAdded(pid: PaymentIdOf, c: Cache, height: nat, txs: seq<Transaction>, id: nat,
                                         h: Hash)
    requires AllPushable(c, height, txs)
    ensures PaymentCount(pid, c.txMap, id, h) + PaymentsOf(pid, txs)[(id, h)]
            == PaymentCount(pid, AddTxs(c, height, txs).txMap, id, h)
  {
    if txs != [] {
      var n := |txs| - 1;
      assert PushableAt(c, height, txs, n);
      forall k | 0 <= k < n ensures PushableAt(c, height, txs[..n], k) {
        assert PushableAt(c, height, txs, k) && txs[..n][..k] == txs[..k];
      }
      PaymentsAdded(pid, c, height, txs[..n], id, h);
      assert PaymentsOf(pid, txs)[(id, h)] == PaymentsOf(pid, txs[..n])[(id, h)] + PaymentOf(pid, txs[n])[(id, h)];
    }
  }

  /** In every sound chain each block met every rule on the blocks below it. */
  lemma {:induction false} StoredMetRules(env: Env, blocks: seq<BlockEntry>, j: nat)
    requires ChainOk(env, blocks) && j < |blocks|
    ensures NamesTxs(blocks[j].bl) && BlockMeets(env, blocks[..j], blocks[j].bl)
  {
    OkAt(env, blocks, j);
    ChainPrefix(env, blocks, j);
    hide ChainOk, BlockOk, VerdictOf, BlockMeets;
    AcceptExactly(env, blocks[..j], blocks[j].bl);
  }
}
