/**
 Which blocks the node accepts on top of which chain, as a function of the stored chain, and what
 every chain made of accepted blocks satisfies.
 */
module LedgerChain {
  import opened LedgerTypes
  import opened LedgerCache
  import opened Reward

  datatype Verdict = Pass | Fail | Throws

  /** Deterministic guards and sizes that come from outside the ledger. */
  datatype Env = Env(
    headerOk: (seq<BlockEntry>, Block) -> bool,
    difficulty: (seq<BlockEntry>, Block) -> nat,
    inZone: nat -> bool,
    unlockWindow: nat,
    unlocked: (seq<BlockEntry>, nat) -> bool,
    keyInput: (seq<BlockEntry>, OutputMap, Transaction, nat) -> Verdict,
    msigSignatures: (Transaction, nat, Target) -> bool,
    txSize: Transaction -> nat,
    maxBlockSize: nat -> nat,
    rewardWindow: nat,
    sizeMedian: seq<nat> -> nat,
    fullRewardZone: nat -> nat,
    penalizeFee: nat -> bool,
    baseReward: (seq<BlockEntry>, Block, uint64) -> uint64,
    reorgOk: (seq<BlockEntry>, seq<Block>) -> bool,
    altHeaderOk: (seq<BlockEntry>, set<Hash>, Block) -> bool,
    altContextOk: (seq<BlockEntry>, seq<Block>, Block) -> bool,
    altDifficulty: (seq<BlockEntry>, seq<AltEntry>, Block) -> nat,
    isCheckpoint: nat -> bool,
    shapeOk: Transaction -> bool,
    inDomain: nat -> bool)

  // ---- Inputs ----

  /** `validateInput`. An output of a block that is not stored yet makes the block vector throw. */
  function ValidateInput(env: Env, blocks: seq<BlockEntry>, msigs: MsigMap, tx: Transaction, i: nat): Verdict
    requires i < |tx.inputs| && tx.inputs[i].MultisignatureInput?
  {
    var input := tx.inputs[i];
    if input.amount !in msigs then Fail
    else if input.outputIndex >= |msigs[input.amount]| then Fail
    else
      var usage := msigs[input.amount][input.outputIndex];
      if usage.isUsed then Fail
      else if usage.txIndex.block >= |blocks| then Throws
      else
        var stored := blocks[usage.txIndex.block].transactions;
        if usage.txIndex.transaction >= |stored|
           || usage.output >= |stored[usage.txIndex.transaction].tx.outputs| then Fail
        else
          var source := stored[usage.txIndex.transaction].tx;
          var target := source.outputs[usage.output].target;
          if !env.unlocked(blocks, source.unlockTime) then Fail
          else if !target.MultisignatureOutput? then Fail
          else if input.signatureCount != target.requiredSignatureCount then Fail
          else if !env.msigSignatures(tx, i, target) then Fail
          else Pass
  }

  function InputVerdict(env: Env, blocks: seq<BlockEntry>, c: Cache, tx: Transaction, i: nat): Verdict
    requires i < |tx.inputs|
  {
    match tx.inputs[i]
    case KeyInput(_, outputIndexes, keyImage) =>
      if outputIndexes == [] then Fail
      else if keyImage in c.spent then Fail
      else if env.inZone(|blocks|) then Pass
      else env.keyInput(blocks, c.tables.keys, tx, i)
    case MultisignatureInput(_, _, _) =>
      if env.inZone(|blocks|) then Pass
      else ValidateInput(env, blocks, c.tables.msigs, tx, i)
    case BaseInput(_) => Fail
  }

  /** `checkTransactionInputs` on the first `n` inputs: the first verdict that is not `Pass`. */
  function InputsVerdict(env: Env, blocks: seq<BlockEntry>, c: Cache, tx: Transaction, n: nat): Verdict
    requires n <= |tx.inputs|
  {
    if n == 0 then Pass
    else
      var v := InputsVerdict(env, blocks, c, tx, n - 1);
      if v != Pass then v else InputVerdict(env, blocks, c, tx, n - 1)
  }

  function TxVerdict(env: Env, blocks: seq<BlockEntry>, c: Cache, tx: Transaction): Verdict {
    InputsVerdict(env, blocks, c, tx, |tx.inputs|)
  }

  lemma {:induction false} PassEach(env: Env, blocks: seq<BlockEntry>, c: Cache, tx: Transaction, n: nat)
    requires n <= |tx.inputs| && InputsVerdict(env, blocks, c, tx, n) == Pass
    ensures forall i :: 0 <= i < n ==> InputVerdict(env, blocks, c, tx, i) == Pass
  {
    if n > 0 { PassEach(env, blocks, c, tx, n - 1); }
  }

  // ---- A block ----

  function HashSet(hashes: seq<Hash>): set<Hash> {
    set i | 0 <= i < |hashes| :: hashes[i]
  }

  ghost predicate Distinct(hashes: seq<Hash>) {
    forall i, j :: 0 <= i < j < |hashes| ==> hashes[i] != hashes[j]
  }

  /** Every listed hash is the hash of a transaction: what taking them from the pool establishes. */
  ghost predicate NamesTxs(b: Block) {
    forall i :: 0 <= i < |b.txHashes| ==> b.txHashes[i].TxHash?
  }

  /** The coinbase followed by the listed transactions. */
  ghost function BlockTxs(b: Block): (txs: seq<Transaction>)
    requires NamesTxs(b)
    ensures |txs| == |b.txHashes| + 1 && txs[0] == b.base
    ensures forall i :: 0 < i < |txs| ==> TxHash(txs[i]) == b.txHashes[i - 1]
  {
    seq(|b.txHashes| + 1, i requires 0 <= i <= |b.txHashes| => if i == 0 then b.base else b.txHashes[i - 1].tx)
  }

  ghost predicate SemanticBlock(b: Block)
    requires NamesTxs(b)
  {
    forall i :: 0 < i < |BlockTxs(b)| ==> Semantic(BlockTxs(b)[i])
  }

  function SumOutputs(outs: seq<Output>): nat {
    if outs == [] then 0 else SumOutputs(outs[..|outs| - 1]) + outs[|outs| - 1].amount
  }

  function InputAmount(i: Input): uint64 {
    if i.BaseInput? then 0 else i.amount
  }

  function SumInputs(inputs: seq<Input>): nat {
    if inputs == [] then 0 else SumInputs(inputs[..|inputs| - 1]) + InputAmount(inputs[|inputs| - 1])
  }

  function TxFee(tx: Transaction): int {
    SumInputs(tx.inputs) - SumOutputs(tx.outputs)
  }

  /** Fees of all transactions but the coinbase, before any wrap-around. */
  function SumFees(txs: seq<Transaction>): int {
    if |txs| <= 1 then 0 else SumFees(txs[..|txs| - 1]) + TxFee(txs[|txs| - 1])
  }

  function SumSizes(env: Env, txs: seq<Transaction>): nat {
    if txs == [] then 0 else SumSizes(env, txs[..|txs| - 1]) + env.txSize(txs[|txs| - 1])
  }

  function TailId(blocks: seq<BlockEntry>): Hash {
    if blocks == [] then NullHash else BlockHash(blocks[|blocks| - 1].bl)
  }

  /** `prevalidate_miner_transaction`. */
  predicate MinerPrevalidated(env: Env, base: Transaction, height: nat) {
    && |base.inputs| == 1
    && base.signatures == []
    && base.inputs[0] == BaseInput(height)
    && base.unlockTime == height + env.unlockWindow
    && SumOutputs(base.outputs) < TWO64
  }

  /** Everything that is checked before the first index is touched. */
  predicate HeaderAccepted(env: Env, blocks: seq<BlockEntry>, c: Cache, b: Block) {
    && BlockHash(b) !in c.blockIds
    && env.headerOk(blocks, b)
    && b.previous == TailId(blocks)
    && env.difficulty(blocks, b) != 0
    && MinerPrevalidated(env, b.base, |blocks|)
  }

  /** The transaction loop of `pushBlock` on `txs[1..n]`: each is checked on what the ones before it left. */
  function TxsVerdict(env: Env, blocks: seq<BlockEntry>, c: Cache, txs: seq<Transaction>, n: nat): Verdict
    requires n <= |txs|
  {
    if n <= 1 then Pass
    else
      var v := TxsVerdict(env, blocks, c, txs, n - 1);
      if v != Pass then v else TxVerdict(env, blocks, AddTxs(c, |blocks|, txs[..n - 1]), txs[n - 1])
  }

  function LastSizes(blocks: seq<BlockEntry>, count: nat): seq<nat> {
    var start := if |blocks| <= count then 0 else |blocks| - count;
    seq<nat>(|blocks| - start, i requires 0 <= i < |blocks| - start => blocks[start + i].cumulativeSize)
  }

  function CoinsOf(blocks: seq<BlockEntry>): uint64 {
    if blocks == [] then 0 else blocks[|blocks| - 1].generatedCoins
  }

  /** Twice the median size that the next block is penalised against. */
  function NextSizeLimit(env: Env, blocks: seq<BlockEntry>): nat {
    2 * EffectiveMedian(env.sizeMedian(LastSizes(blocks, env.rewardWindow)), env.fullRewardZone(|blocks|))
  }

  /** `getBlockReward` as `validate_miner_transaction` calls it. */
  function RewardFor(env: Env, blocks: seq<BlockEntry>, b: Block, size: nat, fee: uint64): Option<RewardAndEmission> {
    BlockReward(env.baseReward(blocks, b, CoinsOf(blocks)), env.fullRewardZone(|blocks|),
                env.sizeMedian(LastSizes(blocks, env.rewardWindow)), size, fee, env.penalizeFee(|blocks|))
  }

  /** `validate_miner_transaction`: the coinbase pays out exactly the reward. */
  predicate MinerValidated(env: Env, blocks: seq<BlockEntry>, b: Block, size: nat, fee: uint64) {
    var r := RewardFor(env, blocks, b, size, fee);
    r.Some? && Wrap64(SumOutputs(b.base.outputs)) == r.value.reward
  }

  function EntryTxs(c: Cache, height: nat, txs: seq<Transaction>): (r: seq<TransactionEntry>)
    ensures |r| == |txs|
  {
    if txs == [] then []
    else
      var n := |txs| - 1;
      var before := AddTxs(c, height, txs[..n]);
      EntryTxs(c, height, txs[..n]) +
      [TransactionEntry(txs[n], GlobalIndexes(Marked(before.tables, txs[n].inputs),
                                              TransactionIndex(height, n), txs[n].outputs))]
  }

  function MakeEntry(env: Env, blocks: seq<BlockEntry>, c: Cache, b: Block, txs: seq<Transaction>,
                     emission: uint64): BlockEntry {
    BlockEntry(b, |blocks|, SumSizes(env, txs),
               env.difficulty(blocks, b) + (if blocks == [] then 0 else blocks[|blocks| - 1].cumulativeDifficulty),
               Wrap64(CoinsOf(blocks) + emission),
               EntryTxs(c, |blocks|, txs))
  }

  /** The exits of `pushBlock`: stored, undone reject, reject at the size check, exception. */
  datatype BlockVerdict = Accept(entry: BlockEntry) | Reject | Oversized | Threw

  /** The exit that `pushBlock` takes for `b` on a node that stores `blocks`. */
  ghost function VerdictOf(env: Env, blocks: seq<BlockEntry>, b: Block): BlockVerdict
    requires NamesTxs(b)
  {
    var c, txs := Rebuild(blocks), BlockTxs(b);
    if !HeaderAccepted(env, blocks, c, b) then Reject
    else
      match TxsVerdict(env, blocks, c, txs, |txs|)
      case Fail => Reject
      case Throws => Threw
      case Pass =>
        if SumSizes(env, txs) > env.maxBlockSize(|blocks|) then Oversized
        else if !MinerValidated(env, blocks, b, SumSizes(env, txs), Wrap64(SumFees(txs))) then Reject
        else Accept(MakeEntry(env, blocks, c, b, txs,
                              RewardFor(env, blocks, b, SumSizes(env, txs), Wrap64(SumFees(txs))).value.emission))
  }

  lemma {:induction false} AcceptedWhen(env: Env, blocks: seq<BlockEntry>, b: Block)
    requires NamesTxs(b) && HeaderAccepted(env, blocks, Rebuild(blocks), b)
    requires TxsVerdict(env, blocks, Rebuild(blocks), BlockTxs(b), |BlockTxs(b)|) == Pass
    requires SumSizes(env, BlockTxs(b)) <= env.maxBlockSize(|blocks|)
    requires MinerValidated(env, blocks, b, SumSizes(env, BlockTxs(b)), Wrap64(SumFees(BlockTxs(b))))
    ensures VerdictOf(env, blocks, b).Accept?
  {
    hide HeaderAccepted, TxsVerdict, SumSizes, RewardFor, Rebuild, SumFees, Wrap64, EntryTxs;
  }

  /**
   Inside the checkpoint zone multisignature inputs are not validated, and marking an output that is not stored reads
   past the end of a vector. A block is defined there if each transaction that gets pushed names, at its turn, stored
   outputs. Above the zone the checks ensure it.
   */
  ghost predicate ZoneStored(env: Env, blocks: seq<BlockEntry>, b: Block)
    requires NamesTxs(b)
  {
    env.inZone(|blocks|) && HeaderAccepted(env, blocks, Rebuild(blocks), b) ==>
      forall n :: 0 < n < |BlockTxs(b)| && TxsVerdict(env, blocks, Rebuild(blocks), BlockTxs(b), n + 1) == Pass ==>
        MarkableAt(Rebuild(blocks), |blocks|, BlockTxs(b), n)
  }

  /** The listed transactions are not recorded yet, and none is listed twice: what taking them from the pool ensures. */
  ghost predicate ListsNew(blocks: seq<BlockEntry>, b: Block) {
    Distinct(b.txHashes) && HashSet(b.txHashes) !! Rebuild(blocks).txMap.Keys
  }

  ghost predicate ZoneOk(env: Env, blocks: seq<BlockEntry>, b: Block)
    requires NamesTxs(b)
  {
    ZoneStored(env, blocks, b) && (env.inZone(|blocks|) ==> ListsNew(blocks, b))
  }

  /** The stored entry is exactly what accepting its block on the blocks below produces. */
  ghost predicate BlockAccepted(env: Env, blocks: seq<BlockEntry>, e: BlockEntry) {
    NamesTxs(e.bl) && SemanticBlock(e.bl) && VerdictOf(env, blocks, e.bl) == Accept(e)
  }

  ghost predicate ChainAccepted(env: Env, blocks: seq<BlockEntry>) {
    forall j :: 0 <= j < |blocks| ==> BlockAccepted(env, blocks[..j], blocks[j])
  }

  ghost predicate BlockOk(env: Env, blocks: seq<BlockEntry>, e: BlockEntry) {
    BlockAccepted(env, blocks, e) && ZoneOk(env, blocks, e.bl)
  }

  /**
   Every stored block was accepted on the blocks below it, and those inside the checkpoint zone list new transactions
   that name stored outputs.
   */
  ghost predicate ChainOk(env: Env, blocks: seq<BlockEntry>) {
    forall j :: 0 <= j < |blocks| ==> BlockOk(env, blocks[..j], blocks[j])
  }

  lemma {:induction false} OkIsAccepted(env: Env, blocks: seq<BlockEntry>)
    requires ChainOk(env, blocks)
    ensures ChainAccepted(env, blocks)
  {
    hide BlockAccepted, ZoneOk;
    forall j | 0 <= j < |blocks| ensures BlockAccepted(env, blocks[..j], blocks[j]) {
      assert BlockOk(env, blocks[..j], blocks[j]);
    }
  }

  lemma {:induction false} AcceptedPrefix(env: Env, blocks: seq<BlockEntry>, k: nat)
    requires ChainAccepted(env, blocks) && k <= |blocks|
    ensures ChainAccepted(env, blocks[..k])
  {
    hide BlockAccepted;
    forall j | 0 <= j < k ensures BlockAccepted(env, blocks[..k][..j], blocks[..k][j]) {
      assert blocks[..k][..j] == blocks[..j];
    }
  }

  // ---- Why a pushed transaction is never refused ----

  /** What is stored has left its marks: key images spent, multisignature outputs used, coinbase heights below `n`. */
  ghost predicate Recorded(c: Cache, n: nat) {
    forall tx :: TxHash(tx) in c.txMap ==>
      && KeyImages(tx.inputs) <= c.spent
      && InRange(c.tables.msigs, MsigRefs(tx.inputs))
      && AllFlags(c.tables.msigs, MsigRefs(tx.inputs), true)
      && forall k: nat :: BaseInput(k) in tx.inputs ==> k < n
  }

  lemma {:induction false} AddTxFlags(c: Cache, idx: TransactionIndex, tx: Transaction, refs: set<(uint64, nat)>)
    requires InRange(c.tables.msigs, refs)
    requires forall r :: r in refs ==> r in MsigRefs(tx.inputs) || c.tables.msigs[r.0][r.1].isUsed
    ensures InRange(AddTx(c, idx, tx).tables.msigs, refs)
    ensures AllFlags(AddTx(c, idx, tx).tables.msigs, refs, true)
  {
    var t := Marked(c.tables, tx.inputs);
    AddOutputsExtends(t, idx, tx.outputs);
    var after: MsigMap := AddTx(c, idx, tx).tables.msigs;
    forall r: (uint64, nat) | r in refs ensures r.0 in after && r.1 < |after[r.0]| && after[r.0][r.1].isUsed {
      assert t.msigs[r.0][r.1].isUsed;
    }
  }

  lemma {:induction false} AddTxRecorded(c: Cache, idx: TransactionIndex, tx: Transaction, n: nat)
    requires Recorded(c, n)
    requires InRange(c.tables.msigs, MsigRefs(tx.inputs))
    requires forall k: nat :: BaseInput(k) in tx.inputs ==> k < n
    ensures Recorded(AddTx(c, idx, tx), n)
  {
    var after := AddTx(c, idx, tx);
    forall t | TxHash(t) in after.txMap
      ensures && KeyImages(t.inputs) <= after.spent
              && InRange(after.tables.msigs, MsigRefs(t.inputs))
              && AllFlags(after.tables.msigs, MsigRefs(t.inputs), true)
    {
      if t == tx {
        AddTxFlags(c, idx, tx, MsigRefs(tx.inputs));
      } else {
        AddTxFlags(c, idx, tx, MsigRefs(t.inputs));
      }
    }
  }

  /** Above the zone the input checks let only stored, unused outputs through. */
  lemma {:induction false} CheckedSpendable(env: Env, blocks: seq<BlockEntry>, c: Cache, tx: Transaction)
    requires TxVerdict(env, blocks, c, tx) == Pass && !env.inZone(|blocks|)
    ensures MsigsSpendable(c, tx.inputs)
  {
    PassEach(env, blocks, c, tx, |tx.inputs|);
    forall r | r in MsigRefs(tx.inputs)
      ensures r.0 in c.tables.msigs && r.1 < |c.tables.msigs[r.0]| && !c.tables.msigs[r.0][r.1].isUsed
    {
      var i :| 0 <= i < |tx.inputs| && tx.inputs[i].MultisignatureInput?
          && r == (tx.inputs[i].amount, tx.inputs[i].outputIndex);
      assert InputVerdict(env, blocks, c, tx, i) == Pass;
    }
  }

  /**
   A transaction that passes the input checks and the semantic checks is never refused by `pushTransaction`. Inside the
   checkpoint zone this takes that it is new and names stored outputs, used or not; above it the checks ensure both.
   */
  lemma {:induction false} CheckedIsPushable(env: Env, blocks: seq<BlockEntry>, c: Cache, tx: Transaction, n: nat)
    requires Recorded(c, n) && Semantic(tx)
    requires TxVerdict(env, blocks, c, tx) == Pass
    requires env.inZone(|blocks|) ==> TxHash(tx) !in c.txMap && InRange(c.tables.msigs, MsigRefs(tx.inputs))
    ensures Pushable(c, tx) && forall k: nat :: BaseInput(k) !in tx.inputs
  {
    PassEach(env, blocks, c, tx, |tx.inputs|);
    forall i | 0 <= i < |tx.inputs|
      ensures tx.inputs[i].KeyInput? ==> tx.inputs[i].keyImage !in c.spent
    {
      assert InputVerdict(env, blocks, c, tx, i) == Pass;
    }
    if !env.inZone(|blocks|) {
      CheckedSpendable(env, blocks, c, tx);
      match tx.inputs[0]
      case KeyInput(_, _, image) => assert image in KeyImages(tx.inputs) && image !in c.spent;
      case MultisignatureInput(a, _, k) => assert (a, k) in MsigRefs(tx.inputs);
    }
  }

  lemma {:induction false} BaseIsPushable(env: Env, c: Cache, base: Transaction, n: nat)
    requires Recorded(c, n) && MinerPrevalidated(env, base, n)
    ensures Pushable(c, base)
    ensures Recorded(AddTx(c, TransactionIndex(n, 0), base), n + 1)
  {
    assert BaseInput(n) in base.inputs;
    assert MsigRefs(base.inputs) == {};
    assert Recorded(c, n + 1);
    AddTxRecorded(c, TransactionIndex(n, 0), base, n + 1);
  }

  /** All transactions before the first refused one were accepted by `pushTransaction`, in order. */
  lemma {:induction false} PassedArePushable(env: Env, blocks: seq<BlockEntry>, b: Block, n: nat)
    requires NamesTxs(b) && SemanticBlock(b) && ZoneOk(env, blocks, b)
    requires Recorded(Rebuild(blocks), |blocks|)
    requires HeaderAccepted(env, blocks, Rebuild(blocks), b)
    requires 0 < n <= |BlockTxs(b)| && TxsVerdict(env, blocks, Rebuild(blocks), BlockTxs(b), n) == Pass
    ensures AllPushable(Rebuild(blocks), |blocks|, BlockTxs(b)[..n])
    ensures Recorded(AddTxs(Rebuild(blocks), |blocks|, BlockTxs(b)[..n]), |blocks| + 1)
  {
    hide Recorded, Pushable, TxVerdict, Rebuild, AddTx, ZoneOk, ListsNew, Semantic;
    var c, txs, h := Rebuild(blocks), BlockTxs(b), |blocks|;
    if n == 1 {
      BaseIsPushable(env, c, b.base, h);
      assert txs[..1][..0] == txs[..0] == [];
      assert AddTxs(c, h, txs[..0]) == c;
      AllPushableExtend(c, h, txs, 0);
    } else {
      PassedArePushable(env, blocks, b, n - 1);
      var before := AddTxs(c, h, txs[..n - 1]);
      ZoneTxOk(env, blocks, b, n - 1);
      CheckedIsPushable(env, blocks, before, txs[n - 1], h + 1);
      PushableInRange(before, txs[n - 1]);
      AddTxRecorded(before, TransactionIndex(h, n - 1), txs[n - 1], h + 1);
      assert txs[..n][..n - 1] == txs[..n - 1];
      AllPushableExtend(c, h, txs, n - 1);
    }
  }

  lemma {:induction false} PushableInRange(c: Cache, tx: Transaction)
    requires Pushable(c, tx)
    ensures InRange(c.tables.msigs, MsigRefs(tx.inputs))
  {
  }

  /** In the zone, a listed transaction is new at its turn and names outputs stored at its turn. */
  lemma {:induction false} ZoneTxOk(env: Env, blocks: seq<BlockEntry>, b: Block, n: nat)
    requires NamesTxs(b) && SemanticBlock(b) && ZoneOk(env, blocks, b)
    requires HeaderAccepted(env, blocks, Rebuild(blocks), b)
    requires 0 < n < |BlockTxs(b)| && TxsVerdict(env, blocks, Rebuild(blocks), BlockTxs(b), n + 1) == Pass
    ensures var before, tx := AddTxs(Rebuild(blocks), |blocks|, BlockTxs(b)[..n]), BlockTxs(b)[n];
            env.inZone(|blocks|) ==> TxHash(tx) !in before.txMap && InRange(before.tables.msigs, MsigRefs(tx.inputs))
  {
    hide Rebuild, AddTxs, TxsVerdict, Semantic, InRange;
    var c, txs := Rebuild(blocks), BlockTxs(b);
    if env.inZone(|blocks|) {
      assert MarkableAt(c, |blocks|, txs, n);
      AddTxsHashes(c, |blocks|, txs[..n]);
      NotBase(env, b, |blocks|, n);
      assert b.txHashes[n - 1] in HashSet(b.txHashes);
      forall k | 0 <= k < n ensures txs[k] != txs[n] {
        assert k > 0 ==> b.txHashes[k - 1] != b.txHashes[n - 1];
      }
    }
  }

  lemma {:induction false} NotBase(env: Env, b: Block, height: nat, n: nat)
    requires NamesTxs(b) && SemanticBlock(b) && MinerPrevalidated(env, b.base, height) && 0 < n < |BlockTxs(b)|
    ensures BlockTxs(b)[n] != b.base
  {
    assert Semantic(BlockTxs(b)[n]);
  }

  lemma {:induction false} EntryTxsAre(c: Cache, height: nat, txs: seq<Transaction>)
    ensures Txs(EntryTxs(c, height, txs)) == txs
  {
    if txs != [] {
      EntryTxsAre(c, height, txs[..|txs| - 1]);
    }
  }

  lemma {:induction false} AcceptedEntry(env: Env, blocks: seq<BlockEntry>, e: BlockEntry)
    requires BlockAccepted(env, blocks, e)
    ensures NamesTxs(e.bl) && Txs(e.transactions) == BlockTxs(e.bl)
    ensures e.height == |blocks|
    ensures HeaderAccepted(env, blocks, Rebuild(blocks), e.bl)
    ensures TxsVerdict(env, blocks, Rebuild(blocks), BlockTxs(e.bl), |BlockTxs(e.bl)|) == Pass
  {
    EntryTxsAre(Rebuild(blocks), |blocks|, BlockTxs(e.bl));
  }

  lemma {:induction false} ChainPrefix(env: Env, blocks: seq<BlockEntry>, k: nat)
    requires ChainOk(env, blocks) && k <= |blocks|
    ensures ChainOk(env, blocks[..k])
  {
    hide BlockOk;
    forall j | 0 <= j < k ensures BlockOk(env, blocks[..k][..j], blocks[..k][j]) {
      assert blocks[..k][..j] == blocks[..j];
    }
  }

  lemma {:induction false} ChainExtend(env: Env, blocks: seq<BlockEntry>, e: BlockEntry)
    requires ChainOk(env, blocks) && BlockOk(env, blocks, e)
    ensures ChainOk(env, blocks + [e])
  {
    hide BlockOk;
    var all := blocks + [e];
    forall j | 0 <= j < |all| ensures BlockOk(env, all[..j], all[j]) {
      assert all[..j] == blocks[..j];
      assert j == |blocks| ==> all[..j] == blocks;
    }
  }

  lemma {:induction false} OkAt(env: Env, blocks: seq<BlockEntry>, j: nat)
    requires ChainOk(env, blocks) && j < |blocks|
    ensures BlockOk(env, blocks[..j], blocks[j]) && BlockAccepted(env, blocks[..j], blocks[j])
  {
    hide BlockAccepted, ZoneOk;
  }

  /** The first position of an id. */
  function IndexIn(ids: seq<Hash>, id: Hash): (r: nat)
    requires id in ids
    ensures r < |ids| && ids[r] == id
  {
    if ids[0] == id then 0 else 1 + IndexIn(ids[1..], id)
  }

  /** `BlockIndex::getBlockHeight` on the id list. */
  method FindId(ids: seq<Hash>, id: Hash) returns (r: Option<nat>)
    ensures r == if id in ids then Some(IndexIn(ids, id)) else None
  {
    for i := 0 to |ids|
      invariant id !in ids[..i] && (id in ids <==> id in ids[i..])
      invariant id in ids ==> IndexIn(ids, id) == i + IndexIn(ids[i..], id)
    {
      if ids[i] == id {
        return Some(i);
      }
      assert ids[i..] == [ids[i]] + ids[i + 1..];
    }
    r := None;
  }

  ghost predicate IdsOf(blocks: seq<BlockEntry>, ids: seq<Hash>) {
    |ids| == |blocks| && forall j :: 0 <= j < |blocks| ==> ids[j] == BlockHash(blocks[j].bl)
  }

  lemma {:induction false} BlockRecorded(env: Env, blocks: seq<BlockEntry>, e: BlockEntry)
    requires BlockOk(env, blocks, e)
    requires Recorded(Rebuild(blocks), |blocks|) && IdsOf(blocks, Rebuild(blocks).blockIds)
    ensures AllPushable(Rebuild(blocks), |blocks|, Txs(e.transactions))
    ensures Recorded(AddBlock(Rebuild(blocks), |blocks|, e), |blocks| + 1)
    ensures IdsOf(blocks + [e], AddBlock(Rebuild(blocks), |blocks|, e).blockIds)
  {
    hide Rebuild, AddTx, TxsVerdict, ZoneOk, Pushable;
    AcceptedEntry(env, blocks, e);
    var txs := BlockTxs(e.bl);
    PassedArePushable(env, blocks, e.bl, |txs|);
    assert txs[..|txs|] == txs;
  }

  /** In every accepted chain all indexes are well formed and the block index lists the block hashes. */
  lemma {:induction false} ChainRecorded(env: Env, blocks: seq<BlockEntry>)
    requires ChainOk(env, blocks)
    ensures Recorded(Rebuild(blocks), |blocks|)
    ensures IdsOf(blocks, Rebuild(blocks).blockIds)
  {
    hide BlockOk, Recorded, AddBlock;
    if blocks == [] {
      EmptyRecorded();
    } else {
      var n := |blocks| - 1;
      ChainPrefix(env, blocks, n);
      ChainRecorded(env, blocks[..n]);
      BlockRecorded(env, blocks[..n], blocks[n]);
      assert blocks[..n] + [blocks[n]] == blocks;
    }
  }

  lemma {:induction false} EmptyRecorded()
    ensures Recorded(EMPTY_CACHE, 0)
  {
  }

  /** Every stored block's transactions were accepted by `pushTransaction`. */
  lemma {:induction false} StoredArePushable(env: Env, blocks: seq<BlockEntry>, e: BlockEntry)
    requires ChainOk(env, blocks) && BlockOk(env, blocks, e)
    ensures AllPushable(Rebuild(blocks), |blocks|, Txs(e.transactions))
  {
    ChainRecorded(env, blocks);
    hide *;
    BlockRecorded(env, blocks, e);
  }
}
