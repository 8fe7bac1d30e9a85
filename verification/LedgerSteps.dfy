/** What single steps of the ledger's operations establish: taking from the pool, pushing, undoing, storing. */
module LedgerSteps {
  import opened LedgerTypes
  import opened LedgerCache
  import opened LedgerInputs
  import opened LedgerUndo
  import opened LedgerChain
  import opened BlockchainIndices

  datatype PushResult = Pushed | Duplicate | DoubleSpend | BadGet

  datatype Outcome = Added | Rejected | SizeExit | Exception

  // ---- The pool, as the ledger sees it ----

  /** The transactions that the hashes name. */
  function Named(hashes: seq<Hash>): map<Hash, Transaction> {
    map h | h in HashSet(hashes) && h.TxHash? :: h.tx
  }

  ghost predicate PoolOk(pool: map<Hash, Transaction>) {
    forall h :: h in pool ==> h == TxHash(pool[h]) && Semantic(pool[h])
  }

  /** All listed transactions can be taken from the pool, one after the other. */
  ghost predicate Available(pool: map<Hash, Transaction>, hashes: seq<Hash>) {
    Distinct(hashes) && HashSet(hashes) <= pool.Keys
  }

  lemma {:induction false} AvailableNames(pool: map<Hash, Transaction>, b: Block)
    requires PoolOk(pool) && Available(pool, b.txHashes)
    ensures NamesTxs(b) && SemanticBlock(b)
    ensures forall i :: 0 <= i < |b.txHashes| ==> pool[b.txHashes[i]] == b.txHashes[i].tx
  {
    forall i | 0 <= i < |b.txHashes|
      ensures b.txHashes[i].TxHash? && Semantic(b.txHashes[i].tx) && pool[b.txHashes[i]] == b.txHashes[i].tx
    {
      assert b.txHashes[i] in HashSet(b.txHashes);
    }
    assert NamesTxs(b);
  }

  function HashesOf(txs: seq<Transaction>): (r: seq<Hash>)
    ensures |r| == |txs| && forall i :: 0 <= i < |txs| ==> r[i] == TxHash(txs[i])
  {
    seq(|txs|, i requires 0 <= i < |txs| => TxHash(txs[i]))
  }

  lemma {:induction false} AvailableStep(pool: map<Hash, Transaction>, hashes: seq<Hash>, i: nat)
    requires i < |hashes|
    ensures HashSet(hashes[..i + 1]) == HashSet(hashes[..i]) + {hashes[i]}
    ensures Available(pool, hashes[..i + 1]) <==>
              Available(pool, hashes[..i]) && hashes[i] in pool && hashes[i] !in HashSet(hashes[..i])
  {
    var before, all := hashes[..i], hashes[..i + 1];
    assert all[i] == hashes[i];
    forall h | h in HashSet(before) ensures h in HashSet(all) {
      var k :| 0 <= k < i && before[k] == h;
      assert all[k] == h;
    }
    assert HashSet(all) == HashSet(before) + {hashes[i]};
    if Distinct(all) {
      forall k, m | 0 <= k < m < i ensures before[k] != before[m] {
        assert before[k] == all[k] && before[m] == all[m];
      }
      assert forall k :: 0 <= k < i ==> before[k] == all[k] != all[i];
    }
    if Distinct(before) && hashes[i] !in HashSet(before) {
      forall k, m | 0 <= k < m < i + 1 ensures all[k] != all[m] {
        assert all[k] == before[k];
        assert before[k] in HashSet(before);
        if m < i { assert all[m] == before[m]; }
      }
    }
  }

  lemma {:induction false} NoneTaken(pool: map<Hash, Transaction>)
    ensures HashSet([]) == {} && Available(pool, []) && pool - HashSet([]) == pool
  {
  }

  lemma {:induction false} AvailablePrefix(pool: map<Hash, Transaction>, hashes: seq<Hash>, n: nat, k: nat)
    requires k < n <= |hashes| && Available(pool, hashes[..n])
    ensures Available(pool, hashes[..k]) && hashes[k] in pool && hashes[k] !in HashSet(hashes[..k])
  {
    AvailableStep(pool, hashes, n - 1);
    if k < n - 1 {
      AvailablePrefix(pool, hashes, n - 1, k);
    }
  }

  lemma {:induction false} NotAvailable(pool: map<Hash, Transaction>, hashes: seq<Hash>, i: nat)
    requires i < |hashes| && !Available(pool, hashes[..i + 1])
    ensures !Available(pool, hashes)
    decreases |hashes| - i
  {
    if i + 1 < |hashes| {
      AvailableStep(pool, hashes, i + 1);
      NotAvailable(pool, hashes, i + 1);
    } else {
      assert hashes[..i + 1] == hashes;
    }
  }

  lemma {:induction false} NamedNil()
    ensures Named([]) == map[]
  {
  }

  lemma {:induction false} NamedCons(tx: Transaction, rest: seq<Transaction>)
    ensures Named(HashesOf([tx] + rest)) == Named(HashesOf(rest))[TxHash(tx) := tx]
  {
    var all := [tx] + rest;
    assert HashesOf(all)[0] == TxHash(tx);
    forall h | h in HashSet(HashesOf(rest)) ensures h in HashSet(HashesOf(all)) {
      var k :| 0 <= k < |rest| && HashesOf(rest)[k] == h;
      assert HashesOf(all)[k + 1] == h;
    }
    assert HashSet(HashesOf(all)) == HashSet(HashesOf(rest)) + {TxHash(tx)};
  }

  lemma {:induction false} PoolUnion(pool: map<Hash, Transaction>, more: map<Hash, Transaction>)
    requires PoolOk(pool) && PoolOk(more)
    ensures PoolOk(pool + more)
  {
  }

  ghost predicate Apart(pool: map<Hash, Transaction>, known: map<Hash, TransactionIndex>) {
    forall h :: h in pool ==> h !in known
  }

  lemma {:induction false} StaysApart(pool: map<Hash, Transaction>, known: map<Hash, TransactionIndex>,
                                      left: map<Hash, TransactionIndex>)
    requires Apart(pool, known) && left.Keys <= known.Keys
    ensures Apart(pool, left)
  {
  }

  /** Returning the last block's transactions to the pool keeps pool and chain apart. */
  lemma {:induction false} ReturnedApart(env: Env, pool: map<Hash, Transaction>, blocks: seq<BlockEntry>)
    requires ChainOk(env, blocks) && blocks != []
    requires PoolOk(pool) && Apart(pool, Rebuild(blocks).txMap)
    ensures var n := |blocks| - 1;
            var bl := blocks[n].bl;
            && NamesTxs(bl) && |blocks[n].transactions| > 0
            && HashesOf(Txs(blocks[n].transactions)[1..]) == bl.txHashes
            && PoolOk(pool + Named(bl.txHashes))
            && Apart(pool + Named(bl.txHashes), Rebuild(blocks[..n]).txMap)
  {
    hide ChainOk, Rebuild, BlockTxs, Distinct, PoolOk;
    LastBlockPooled(env, blocks);
    var bl := blocks[|blocks| - 1].bl;
    assert HashesOf(Txs(blocks[|blocks| - 1].transactions)[1..]) == bl.txHashes;
    PoolUnion(pool, Named(bl.txHashes));
    NamedKeys(bl);
  }

  lemma {:induction false} NamedKeys(b: Block)
    requires NamesTxs(b)
    ensures Named(b.txHashes).Keys == HashSet(b.txHashes)
  {
  }

  /** A coinbase is never in the pool. */
  lemma {:induction false} BaseNotPooled(env: Env, pool: map<Hash, Transaction>, blocks: seq<BlockEntry>, b: Block)
    requires PoolOk(pool) && NamesTxs(b) && VerdictOf(env, blocks, b).Accept?
    ensures TxHash(b.base) !in pool
  {
    hide Rebuild, TxsVerdict, MinerValidated, RewardFor;
  }

  /** Transactions from a pool apart from the chain are new. */
  lemma {:induction false} AvailableNew(pool: map<Hash, Transaction>, blocks: seq<BlockEntry>, b: Block)
    requires Available(pool, b.txHashes) && Apart(pool, Rebuild(blocks).txMap)
    ensures ListsNew(blocks, b)
  {
    hide Rebuild, Distinct;
  }

  /** Putting back what was taken restores the pool. */
  lemma {:induction false} SavedAgain(pool: map<Hash, Transaction>, b: Block, txs: seq<Transaction>)
    requires PoolOk(pool) && Available(pool, b.txHashes)
    requires NamesTxs(b) && [b.base] + txs == BlockTxs(b)
    ensures HashesOf(txs) == b.txHashes
    ensures pool - HashSet(b.txHashes) + Named(HashesOf(txs)) == pool
  {
    assert forall i :: 0 <= i < |txs| ==> txs[i] == BlockTxs(b)[i + 1];
    assert HashesOf(txs) == b.txHashes;
    forall h | h in HashSet(b.txHashes) ensures h in pool && h.TxHash? && pool[h] == h.tx {
    }
  }

  function OutcomeOf(v: BlockVerdict): Outcome {
    match v
    case Accept(_) => Added
    case Reject => Rejected
    case Oversized => SizeExit
    case Threw => Exception
  }

  // ---- What the steps of `pushBlock` establish ----

  /** The situation in which the transactions of `b` are being pushed on a consistent node. */
  ghost predicate Building(env: Env, blocks: seq<BlockEntry>, b: Block, n: nat) {
    && NamesTxs(b) && SemanticBlock(b) && ZoneOk(env, blocks, b)
    && Recorded(Rebuild(blocks), |blocks|)
    && HeaderAccepted(env, blocks, Rebuild(blocks), b)
    && 0 < n <= |BlockTxs(b)| && TxsVerdict(env, blocks, Rebuild(blocks), BlockTxs(b), n) == Pass
  }

  lemma {:induction false} HeaderVerdict(env: Env, blocks: seq<BlockEntry>, b: Block)
    requires NamesTxs(b) && !HeaderAccepted(env, blocks, Rebuild(blocks), b)
    ensures VerdictOf(env, blocks, b) == Reject
  {
    hide Rebuild;
    hide HeaderAccepted;
  }

  /** What the node holds while the transactions of a block are being pushed. */
  datatype Progress = Progress(view: Cache, pay: Payments, entries: seq<TransactionEntry>, size: nat, fees: uint64)

  /** The coinbase and the first `n - 1` transactions of `b` are pushed on top of `blocks`, and nothing else. */
  ghost predicate PushedUpTo(env: Env, pid: PaymentIdOf, blocks: seq<BlockEntry>, b: Block, n: nat,
                             before: Payments, p: Progress)
  {
    && Building(env, blocks, b, n)
    && Tallied(env, pid, Rebuild(blocks), |blocks|, BlockTxs(b)[..n], before, p)
  }

  /** What pushing `txs` onto `c` leaves in the cache, the indices and the running totals. */
  ghost predicate Tallied(env: Env, pid: PaymentIdOf, c: Cache, height: nat, txs: seq<Transaction>,
                          before: Payments, p: Progress)
  {
    && p.view == AddTxs(c, height, txs)
    && p.pay == before + PaymentsOf(pid, txs)
    && p.entries == EntryTxs(c, height, txs)
    && p.size == SumSizes(env, txs)
    && p.fees == Wrap64(SumFees(txs))
  }

  /** The 64-bit fee that `pushBlock` computes for a transaction. */
  function WrappedFee(tx: Transaction): uint64 {
    Wrap64(Wrap64(SumInputs(tx.inputs)) - Wrap64(SumOutputs(tx.outputs)))
  }

  /** The progress after pushing one more transaction. */
  ghost function Pushing(env: Env, pid: PaymentIdOf, p: Progress, idx: TransactionIndex, tx: Transaction,
                         fee: uint64): Progress
  {
    Progress(AddTx(p.view, idx, tx), p.pay + PaymentOf(pid, tx),
             p.entries + [TransactionEntry(tx, GlobalIndexes(Marked(p.view.tables, tx.inputs), idx, tx.outputs))],
             p.size + env.txSize(tx), Wrap64(p.fees + fee))
  }

  lemma {:induction false} FirstPush(env: Env, pid: PaymentIdOf, blocks: seq<BlockEntry>, b: Block, before: Payments)
    requires NamesTxs(b) && SemanticBlock(b) && ZoneOk(env, blocks, b)
    requires Recorded(Rebuild(blocks), |blocks|)
    requires HeaderAccepted(env, blocks, Rebuild(blocks), b)
    ensures ClaimsHeight(b)
    ensures InRange(Rebuild(blocks).tables.msigs, MsigRefs(b.base.inputs)) && Pushable(Rebuild(blocks), b.base)
    ensures PushedUpTo(env, pid, blocks, b, 1, before,
                       Pushing(env, pid, Progress(Rebuild(blocks), before, [], 0, 0), TransactionIndex(|blocks|, 0),
                               b.base, 0))
  {
    hide Rebuild, ZoneOk, AddTx, GlobalIndexes, Marked, PaymentOf;
    var c, all := Rebuild(blocks), BlockTxs(b);
    BaseIsPushable(env, c, b.base, |blocks|);
    assert all[..1][..0] == [] && all[..1] == [b.base];
    assert AddTxs(c, |blocks|, all[..1][..0]) == c && EntryTxs(c, |blocks|, all[..1][..0]) == [];
    var q := Pushing(env, pid, Progress(c, before, [], 0, 0), TransactionIndex(|blocks|, 0), b.base, 0);
    assert Building(env, blocks, b, 1);
    assert q.view == AddTxs(c, |blocks|, all[..1]);
    assert q.pay == before + PaymentsOf(pid, all[..1]);
    assert q.entries == EntryTxs(c, |blocks|, all[..1]);
    assert q.size == SumSizes(env, all[..1]);
    assert q.fees == Wrap64(SumFees(all[..1]));
    assert PushedUpTo(env, pid, blocks, b, 1, before, q);
  }

  lemma {:induction false} TalliedStep(env: Env, pid: PaymentIdOf, c: Cache, height: nat, txs: seq<Transaction>,
                                       tx: Transaction, before: Payments, p: Progress)
    requires txs != [] && Tallied(env, pid, c, height, txs, before, p)
    ensures Tallied(env, pid, c, height, txs + [tx], before,
                    Pushing(env, pid, p, TransactionIndex(height, |txs|), tx, WrappedFee(tx)))
  {
    hide AddTx, GlobalIndexes, Marked, PaymentOf, SumInputs, SumOutputs, Wrap64;
    var all, n := txs + [tx], |txs|;
    assert all[..n] == txs;
    assert Wrap64(Wrap64(SumFees(txs)) + WrappedFee(tx)) == Wrap64(SumFees(all)) by {
      FeeStep(SumFees(txs), SumInputs(tx.inputs), SumOutputs(tx.outputs));
    }
    assert before + PaymentsOf(pid, txs) + PaymentOf(pid, tx) == before + PaymentsOf(pid, all);
  }

  lemma {:induction false} PushStep(env: Env, pid: PaymentIdOf, blocks: seq<BlockEntry>, b: Block, n: nat,
                                    before: Payments, p: Progress)
    returns (q: Progress)
    requires PushedUpTo(env, pid, blocks, b, n, before, p) && NamesTxs(b) && n < |BlockTxs(b)|
    requires TxVerdict(env, blocks, p.view, BlockTxs(b)[n]) == Pass
    ensures InRange(p.view.tables.msigs, MsigRefs(BlockTxs(b)[n].inputs)) && Pushable(p.view, BlockTxs(b)[n])
    ensures q == Pushing(env, pid, p, TransactionIndex(|blocks|, n), BlockTxs(b)[n], WrappedFee(BlockTxs(b)[n]))
    ensures PushedUpTo(env, pid, blocks, b, n + 1, before, q)
  {
    hide Rebuild, ZoneOk, HeaderAccepted, Recorded, AddTxs, TxVerdict, Pushable, MsigsSpendable, EntryTxs;
    hide Pushing, InRange, SemanticBlock, NamesTxs, WrappedFee, BlockTxs, PaymentsOf, SumSizes, SumFees, Wrap64;
    var c, all := Rebuild(blocks), BlockTxs(b);
    assert all[..n + 1] == all[..n] + [all[n]] && all[..n + 1][..n] == all[..n];
    assert TxsVerdict(env, blocks, c, all, n + 1) == Pass;
    PassedArePushable(env, blocks, b, n + 1);
    assert PushableAt(c, |blocks|, all[..n + 1], n);
    PushableInRange(p.view, all[n]);
    q := Pushing(env, pid, p, TransactionIndex(|blocks|, n), all[n], WrappedFee(all[n]));
    TalliedStep(env, pid, c, |blocks|, all[..n], all[n], before, p);
  }

  // ---- What a reject exit leaves ----

  /** How many of the first `n` transactions are pushed before the loop stops, coinbase included. */
  ghost function PassCount(env: Env, blocks: seq<BlockEntry>, c: Cache, txs: seq<Transaction>, n: nat): (r: nat)
    requires 0 < n <= |txs|
    ensures 0 < r <= n && TxsVerdict(env, blocks, c, txs, r) == Pass
  {
    if TxsVerdict(env, blocks, c, txs, n) == Pass then n else PassCount(env, blocks, c, txs, n - 1)
  }

  /** The outputs consumed by what is pushed before a block is rejected; the undo clears their usage flags. */
  ghost function RejectClears(env: Env, blocks: seq<BlockEntry>, b: Block): set<(uint64, nat)>
    requires NamesTxs(b)
  {
    var c, txs := Rebuild(blocks), BlockTxs(b);
    if !HeaderAccepted(env, blocks, c, b) then {}
    else MsigRefs(TxsInputs(txs[..PassCount(env, blocks, c, txs, |txs|)]))
  }

  /** Rejecting the block leaves every index as it was: it pushes no transaction that consumes a used output. */
  ghost predicate Restores(env: Env, blocks: seq<BlockEntry>, b: Block)
    requires NamesTxs(b)
  {
    Consumed(blocks) !! RejectClears(env, blocks, b)
  }

  lemma {:induction false} PassCountIs(env: Env, blocks: seq<BlockEntry>, c: Cache, txs: seq<Transaction>, n: nat,
                                       m: nat)
    requires 0 < n <= m <= |txs| && TxsVerdict(env, blocks, c, txs, n) == Pass
    requires n < m ==> TxVerdict(env, blocks, AddTxs(c, |blocks|, txs[..n]), txs[n]) != Pass
    ensures PassCount(env, blocks, c, txs, m) == n
  {
    hide AddTxs, TxVerdict;
    if n < m {
      FirstStop(env, blocks, c, txs, n, m);
      if n < m - 1 {
        PassCountIs(env, blocks, c, txs, n, m - 1);
      } else {
        assert PassCount(env, blocks, c, txs, n) == n;
      }
    }
  }

  /** A block that stops after `n` pushed transactions is undone by clearing what they consumed. */
  lemma {:induction false} StoppedClears(env: Env, pid: PaymentIdOf, blocks: seq<BlockEntry>, b: Block, n: nat,
                                         before: Payments, p: Progress)
    requires PushedUpTo(env, pid, blocks, b, n, before, p) && NamesTxs(b)
    requires n < |BlockTxs(b)| ==> TxVerdict(env, blocks, p.view, BlockTxs(b)[n]) != Pass
    ensures RejectClears(env, blocks, b) == MsigRefs(TxsInputs(BlockTxs(b)[..n]))
  {
    hide Rebuild, ZoneOk, HeaderAccepted, Recorded, AddTxs, TxVerdict, PaymentsOf, EntryTxs, SumSizes, SumFees;
    hide MsigRefs, TxsInputs;
    PassCountIs(env, blocks, Rebuild(blocks), BlockTxs(b), n, |BlockTxs(b)|);
  }

  /** Clearing flags leaves a chain's indexes alone if and only if the chain consumed nothing of what is cleared. */
  lemma {:induction false} ClearedChain(env: Env, blocks: seq<BlockEntry>, refs: set<(uint64, nat)>)
    requires ChainOk(env, blocks)
    ensures Cleared(Rebuild(blocks), refs) == Rebuild(blocks) <==> Consumed(blocks) !! refs
    ensures Cleared(Rebuild(blocks), {}) == Rebuild(blocks)
  {
    hide ChainOk, Rebuild, RebuildDefined, FlagsRecord, Cleared;
    ChainRebuildDefined(env, blocks);
    FlagsAreConsumed(blocks);
    ClearsNothing(Rebuild(blocks), ChainInputs(blocks), refs);
    ClearsNothing(Rebuild(blocks), ChainInputs(blocks), {});
  }

  /** Above the checkpoint zone every reject restores the indexes. */
  lemma {:induction false} RejectRestores(env: Env, blocks: seq<BlockEntry>, b: Block)
    requires ChainOk(env, blocks) && NamesTxs(b) && SemanticBlock(b) && !env.inZone(|blocks|)
    ensures Restores(env, blocks, b)
  {
    hide ChainOk, Rebuild, RebuildDefined, FlagsRecord, AddTxs, TxVerdict, MsigRefs, Recorded;
    var c, txs := Rebuild(blocks), BlockTxs(b);
    if HeaderAccepted(env, blocks, c, b) {
      ChainRebuildDefined(env, blocks);
      FlagsAreConsumed(blocks);
      var upto := txs[..PassCount(env, blocks, c, txs, |txs|)];
      PassedAreFresh(env, blocks, c, b, |upto|);
      FreshIffDistinct(c, |blocks|, upto, ChainInputs(blocks));
    }
  }

  /** What the reject exit of `pushBlock` leaves, and when that is what was there before. */
  lemma {:induction false} RejectExit(env: Env, blocks: seq<BlockEntry>, b: Block)
    requires ChainOk(env, blocks) && NamesTxs(b) && SemanticBlock(b)
    ensures var left := Cleared(Rebuild(blocks), RejectClears(env, blocks, b));
            && (left == Rebuild(blocks) <==> Restores(env, blocks, b)) && left.txMap == Rebuild(blocks).txMap
            && (!HeaderAccepted(env, blocks, Rebuild(blocks), b) ==> left == Rebuild(blocks))
            && (!env.inZone(|blocks|) ==> Restores(env, blocks, b))
  {
    hide ChainOk, Rebuild, HeaderAccepted, Consumed, PassCount, MsigRefs;
    ClearedChain(env, blocks, RejectClears(env, blocks, b));
    if !env.inZone(|blocks|) {
      RejectRestores(env, blocks, b);
    }
  }

  /** Above the zone the transactions that are pushed consume stored outputs that are unused at their turn. */
  lemma {:induction false} PassedAreFresh(env: Env, blocks: seq<BlockEntry>, c: Cache, b: Block, n: nat)
    requires NamesTxs(b) && SemanticBlock(b) && !env.inZone(|blocks|) && MinerPrevalidated(env, b.base, |blocks|)
    requires 0 < n <= |BlockTxs(b)| && TxsVerdict(env, blocks, c, BlockTxs(b), n) == Pass
    ensures var upto := BlockTxs(b)[..n];
            && AllFresh(c, |blocks|, upto) && AllMarkable(c, |blocks|, upto)
            && forall k :: 0 <= k < n ==> DistinctMsigs(upto[k].inputs)
  {
    hide AddTxs, TxVerdict, MsigsSpendable;
    var txs := BlockTxs(b);
    var upto := txs[..n];
    BaseHasNoKeys(env, b.base, |blocks|);
    NoConsumption(b.base.inputs);
    forall k | 0 <= k < n ensures FreshAt(c, |blocks|, upto, k) && DistinctMsigs(upto[k].inputs) {
      assert upto[..k] == txs[..k] && upto[k] == txs[k];
      if k > 0 {
        assert Semantic(txs[k]);
        PassPrefix(env, blocks, c, txs, k + 1, n);
        CheckedSpendable(env, blocks, AddTxs(c, |blocks|, txs[..k]), txs[k]);
      } else {
        NothingSpendable(AddTxs(c, |blocks|, txs[..0]), b.base.inputs);
      }
    }
    forall k | 0 <= k < n ensures MarkableAt(c, |blocks|, upto, k) {
      FreshIsMarkable(c, |blocks|, upto, k);
    }
  }

  lemma {:induction false} BaseHasNoKeys(env: Env, base: Transaction, height: nat)
    requires MinerPrevalidated(env, base, height)
    ensures KeyImages(base.inputs) == {} && MsigRefs(base.inputs) == {}
  {
    assert base.inputs[0] == BaseInput(height);
  }

  lemma {:induction false} NothingSpendable(c: Cache, inputs: seq<Input>)
    requires MsigRefs(inputs) == {}
    ensures MsigsSpendable(c, inputs)
  {
  }

  lemma {:induction false} FreshIsMarkable(c: Cache, height: nat, txs: seq<Transaction>, k: nat)
    requires k < |txs| && FreshAt(c, height, txs, k)
    ensures MarkableAt(c, height, txs, k)
  {
  }

  lemma {:induction false} FreshFees()
    ensures Wrap64(0) == 0
  {
  }

  lemma {:induction false} NothingNew(known: map<Hash, TransactionIndex>, b: Block)
    ensures KnownFrom(known, known, b)
  {
  }

  lemma {:induction false} FeeStep(fees: int, ins: nat, outs: nat)
    ensures Wrap64(Wrap64(fees) + Wrap64(Wrap64(ins) - Wrap64(outs))) == Wrap64(fees + (ins - outs))
  {
    WrapAdd(ins, -(Wrap64(outs) as int));
    var k := outs / TWO64;
    WrapShift(ins - outs, k);
    assert ins - Wrap64(outs) == ins - outs + k * TWO64;
    WrapAdd(fees, Wrap64(ins - outs));
    WrapAdd(ins - outs, fees);
  }

  lemma {:induction false} TxsStop(env: Env, pid: PaymentIdOf, blocks: seq<BlockEntry>, b: Block, n: nat,
                                   before: Payments, p: Progress)
    requires PushedUpTo(env, pid, blocks, b, n, before, p) && NamesTxs(b) && n < |BlockTxs(b)|
    ensures var v := TxVerdict(env, blocks, p.view, BlockTxs(b)[n]);
            v != Pass ==> VerdictOf(env, blocks, b) == (if v == Fail then Reject else Threw)
  {
    hide Rebuild, ZoneOk, HeaderAccepted, Recorded, AddTxs, TxVerdict, PaymentsOf, EntryTxs, SumSizes, SumFees;
    if TxVerdict(env, blocks, p.view, BlockTxs(b)[n]) != Pass {
      FirstStop(env, blocks, Rebuild(blocks), BlockTxs(b), n, |BlockTxs(b)|);
    }
  }

  lemma {:induction false} PassPrefix(env: Env, blocks: seq<BlockEntry>, c: Cache, txs: seq<Transaction>, n: nat,
                                      m: nat)
    requires n <= m <= |txs| && TxsVerdict(env, blocks, c, txs, m) == Pass
    ensures TxsVerdict(env, blocks, c, txs, n) == Pass
  {
    hide TxVerdict, AddTxs;
    if n < m {
      PassPrefix(env, blocks, c, txs, n, m - 1);
    }
  }

  lemma {:induction false} FirstStop(env: Env, blocks: seq<BlockEntry>, c: Cache, txs: seq<Transaction>, n: nat, m: nat)
    requires 0 < n < m <= |txs| && TxsVerdict(env, blocks, c, txs, n) == Pass
    requires TxVerdict(env, blocks, AddTxs(c, |blocks|, txs[..n]), txs[n]) != Pass
    ensures TxsVerdict(env, blocks, c, txs, m) == TxVerdict(env, blocks, AddTxs(c, |blocks|, txs[..n]), txs[n])
  {
    hide AddTxs, TxVerdict;
    if m > n + 1 {
      FirstStop(env, blocks, c, txs, n, m - 1);
    }
  }

  /** At every point of the transaction loop the undo is defined; it clears the usage flags of what was pushed. */
  lemma {:induction false} UndoDefined(env: Env, pid: PaymentIdOf, blocks: seq<BlockEntry>, b: Block, n: nat,
                                       before: Payments, p: Progress)
    requires PushedUpTo(env, pid, blocks, b, n, before, p)
    ensures ListsTransactions(p.entries, b)
    ensures PopTxsDefined(p.view, Txs(p.entries))
    ensures PopTxs(p.view, Txs(p.entries)).0 == Cleared(Rebuild(blocks), MsigRefs(TxsInputs(BlockTxs(b)[..n])))
    ensures p.pay - PaymentsOf(pid, Txs(p.entries)) == before
  {
    hide ZoneOk, HeaderAccepted, Recorded, AddTx, TxVerdict, Pushable, PaymentsOf, Cleared, UnusedIn;
    var c, txs := Rebuild(blocks), BlockTxs(b)[..n];
    EntryTxsAre(c, |blocks|, txs);
    PassedArePushable(env, blocks, b, n);
    RebuildNoEmpty(blocks);
    PopTxsExactly(c, |blocks|, txs);
    BackToStart(before, PaymentsOf(pid, txs));
  }

  lemma {:induction false} BackToStart(before: Payments, added: Payments)
    ensures before + added - added == before
  {
  }

  /** Hashes known after pushing come from before, from the block's list, or are the coinbase's. */
  ghost predicate KnownFrom(known: map<Hash, TransactionIndex>, before: map<Hash, TransactionIndex>, b: Block) {
    forall h :: h in known ==> h in before || h in HashSet(b.txHashes) || h == TxHash(b.base)
  }

  /** Transactions that were pushed and not popped are visible: the indexes are not those of the stored chain. */
  lemma {:induction false} LeftBehind(env: Env, blocks: seq<BlockEntry>, b: Block, n: nat)
    requires Building(env, blocks, b, n)
    ensures AddTxs(Rebuild(blocks), |blocks|, BlockTxs(b)[..n]) != Rebuild(blocks)
    ensures KnownFrom(AddTxs(Rebuild(blocks), |blocks|, BlockTxs(b)[..n]).txMap, Rebuild(blocks).txMap, b)
  {
    hide Rebuild;
    var c, txs := Rebuild(blocks), BlockTxs(b)[..n];
    BaseIsPushable(env, c, b.base, |blocks|);
    AddTxsHashes(c, |blocks|, txs);
    assert txs[0] == b.base;
    assert TxHash(b.base) in AddTxs(c, |blocks|, txs).txMap;
    forall h | h in AddTxs(c, |blocks|, txs).txMap
      ensures h in c.txMap || h in HashSet(b.txHashes) || h == TxHash(b.base)
    {
      if h !in c.txMap {
        var i :| 0 <= i < n && txs[i] == h.tx;
        if i > 0 {
          assert b.txHashes[i - 1] == h;
        }
      }
    }
  }

  lemma {:induction false} ProgressVisible(env: Env, pid: PaymentIdOf, blocks: seq<BlockEntry>, b: Block, n: nat,
                                           before: Payments, p: Progress)
    requires PushedUpTo(env, pid, blocks, b, n, before, p)
    ensures p.view != Rebuild(blocks) && KnownFrom(p.view.txMap, Rebuild(blocks).txMap, b)
    ensures p.view.blockIds == Rebuild(blocks).blockIds
  {
    hide Rebuild, AddTxs, PaymentsOf, EntryTxs, SumSizes, SumFees, KnownFrom;
    LeftBehind(env, blocks, b, n);
    AddTxsKeepsBlockIds(Rebuild(blocks), |blocks|, BlockTxs(b)[..n]);
  }

  /** After the transaction loop only the size and the reward decide. */
  lemma {:induction false} AllPassed(env: Env, pid: PaymentIdOf, blocks: seq<BlockEntry>, b: Block,
                                     before: Payments, p: Progress)
    requires NamesTxs(b) && PushedUpTo(env, pid, blocks, b, |BlockTxs(b)|, before, p)
    ensures p.view == AddTxs(Rebuild(blocks), |blocks|, BlockTxs(b))
    ensures VerdictOf(env, blocks, b) ==
              if p.size > env.maxBlockSize(|blocks|) then Oversized
              else if !MinerValidated(env, blocks, b, p.size, p.fees) then Reject
              else Accept(BlockEntry(b, |blocks|, p.size,
                            env.difficulty(blocks, b)
                                + (if blocks == [] then 0 else blocks[|blocks| - 1].cumulativeDifficulty),
                            Wrap64(CoinsOf(blocks) + RewardFor(env, blocks, b, p.size, p.fees).value.emission),
                            p.entries))
  {
    hide Rebuild, ZoneOk, HeaderAccepted, Recorded, TxsVerdict, SumSizes, SumFees, EntryTxs, RewardFor, AddTxs;
    hide PaymentsOf;
    assert BlockTxs(b)[..|BlockTxs(b)|] == BlockTxs(b);
  }

  /** Storing an accepted block on top of its pushed transactions gives the rebuilt state of the longer chain. */
  lemma {:induction false} AcceptedExtends(env: Env, pid: PaymentIdOf, blocks: seq<BlockEntry>, e: BlockEntry,
                                           p: Progress)
    requires NamesTxs(e.bl)
    requires PushedUpTo(env, pid, blocks, e.bl, |BlockTxs(e.bl)|, RebuildPayments(pid, blocks), p)
    requires ChainOk(env, blocks) && VerdictOf(env, blocks, e.bl) == Accept(e)
    ensures ChainOk(env, blocks + [e])
    ensures Rebuild(blocks + [e]) == p.view.(blockIds := PushId(p.view.blockIds, BlockHash(e.bl)))
    ensures RebuildPayments(pid, blocks + [e]) == p.pay
    ensures RebuildTimestamps(blocks + [e]) == RebuildTimestamps(blocks) + multiset{(e.bl.timestamp, BlockHash(e.bl))}
    ensures ClaimsHeight(e.bl) && GeneratedAdd(TotalsOf(blocks), e.bl) == TotalsOf(blocks + [e])
  {
    hide VerdictOf, AddTxs, ChainOk, BlockTxs, Recorded, TxsVerdict, PaymentsOf, KnownFrom, SumSizes, SumFees, EntryTxs;
    hide ZoneOk, HeaderAccepted, SemanticBlock;
    assert BlockOk(env, blocks, e);
    ChainExtend(env, blocks, e);
    ExtendedFields(env, pid, blocks, e, p);
    assert (blocks + [e])[..|blocks|] == blocks;
  }

  lemma {:induction false} ExtendedFields(env: Env, pid: PaymentIdOf, blocks: seq<BlockEntry>, e: BlockEntry,
                                          p: Progress)
    requires BlockAccepted(env, blocks, e)
    requires PushedUpTo(env, pid, blocks, e.bl, |BlockTxs(e.bl)|, RebuildPayments(pid, blocks), p)
    ensures p.view == AddTxs(Rebuild(blocks), |blocks|, Txs(e.transactions))
    ensures p.view.blockIds == Rebuild(blocks).blockIds
    ensures p.pay == RebuildPayments(pid, blocks) + PaymentsOf(pid, Txs(e.transactions))
    ensures ClaimsHeight(e.bl) && GeneratedAdd(TotalsOf(blocks), e.bl) == TotalsOf(blocks + [e])
  {
    hide VerdictOf, AddTxs, Recorded, TxsVerdict, PaymentsOf, KnownFrom, SumSizes, SumFees, EntryTxs, ZoneOk;
    AcceptedEntry(env, blocks, e);
    assert BlockTxs(e.bl)[..|BlockTxs(e.bl)|] == BlockTxs(e.bl);
    ProgressVisible(env, pid, blocks, e.bl, |BlockTxs(e.bl)|, RebuildPayments(pid, blocks), p);
    TotalsAdd(blocks, e);
  }

  ghost predicate ListsTransactions(transactions: seq<TransactionEntry>, b: Block) {
    && 0 < |transactions| <= |b.txHashes| + 1 && transactions[0].tx == b.base
    && forall i :: 1 <= i < |transactions| ==> b.txHashes[i - 1] == TxHash(transactions[i].tx)
  }

  lemma {:induction false} ListedHashes(transactions: seq<TransactionEntry>, b: Block)
    requires ListsTransactions(transactions, b)
    ensures 0 < |transactions| <= |b.txHashes| + 1 && transactions[0].tx == b.base
    ensures forall i :: 1 <= i < |transactions| ==> b.txHashes[i - 1] == TxHash(transactions[i].tx)
  {
  }

  lemma {:induction false} PopNothing(c: Cache, pid: PaymentIdOf)
    ensures PopTxsDefined(c, []) && PopTxs(c, []) == (c, true) && PaymentsOf(pid, []) == multiset{}
  {
  }

  // ---- Loops over the inputs of one transaction ----

  lemma {:induction false} FirstVerdict(env: Env, blocks: seq<BlockEntry>, c: Cache, tx: Transaction, i: nat)
    requires i < |tx.inputs| && InputsVerdict(env, blocks, c, tx, i) == Pass
    requires InputVerdict(env, blocks, c, tx, i) != Pass
    ensures TxVerdict(env, blocks, c, tx) == InputVerdict(env, blocks, c, tx, i)
  {
    FirstVerdictUpTo(env, blocks, c, tx, i, |tx.inputs|);
  }

  lemma {:induction false} FirstVerdictUpTo(env: Env, blocks: seq<BlockEntry>, c: Cache, tx: Transaction, i: nat,
                                            n: nat)
    requires i < n <= |tx.inputs| && InputsVerdict(env, blocks, c, tx, i) == Pass
    requires InputVerdict(env, blocks, c, tx, i) != Pass
    ensures InputsVerdict(env, blocks, c, tx, n) == InputVerdict(env, blocks, c, tx, i)
  {
    if n > i + 1 {
      FirstVerdictUpTo(env, blocks, c, tx, i, n - 1);
    }
  }

  lemma {:induction false} FlagsExtend(m: MsigMap, refs: set<(uint64, nat)>, a: uint64, k: nat)
    requires InRange(m, refs) && a in m && k < |m[a]|
    ensures InRange(m, refs + {(a, k)})
    ensures AllFlags(m, refs + {(a, k)}, true) <==> AllFlags(m, refs, true) && m[a][k].isUsed
  {
    var all := refs + {(a, k)};
    assert forall r :: r in all ==> r in refs || r == (a, k);
    assert forall r :: r in refs ==> r in all;
    assert (a, k) in all;
  }

  lemma {:induction false} RepeatedImage(inputs: seq<Input>, i: nat, before: set<nat>)
    requires i < |inputs| && inputs[i].KeyInput?
    requires inputs[i].keyImage in before || inputs[i].keyImage in KeyImages(inputs[..i])
    ensures !(DistinctImages(inputs) && KeyImages(inputs) !! before)
  {
    var image := inputs[i].keyImage;
    assert image in KeyImages(inputs);
    if image !in before {
      var k :| 0 <= k < i && inputs[..i][k].KeyInput? && inputs[..i][k].keyImage == image;
      assert inputs[k] == inputs[..i][k];
    }
  }

  lemma {:induction false} ImagesCons(i: Input, rest: seq<Input>)
    ensures KeyImages([i] + rest) == (if i.KeyInput? then {i.keyImage} else {}) + KeyImages(rest)
  {
    var all := [i] + rest;
    forall x | x in KeyImages(rest) ensures x in KeyImages(all) {
      var k :| 0 <= k < |rest| && rest[k].KeyInput? && rest[k].keyImage == x;
      assert all[k + 1] == rest[k];
    }
    if i.KeyInput? {
      assert all[0] == i;
      assert i.keyImage in KeyImages(all);
    }
  }

  lemma {:induction false} NoFlags(m: MsigMap, used: bool)
    ensures WithFlags(m, {}, used) == m
    ensures MsigRefs([]) == {}
  {
    var w := WithFlags(m, {}, used);
    hide WithFlags;
    forall x | x in m ensures w[x] == m[x] {
      forall i | 0 <= i < |m[x]| ensures w[x][i] == m[x][i] {
      }
    }
  }

  lemma {:induction false} OneFlag(m: MsigMap, refs: set<(uint64, nat)>, a: uint64, k: nat, used: bool)
    requires a in m && k < |m[a]|
    ensures var w := WithFlags(m, refs, used);
            w[a := w[a][k := w[a][k].(isUsed := used)]] == WithFlags(m, refs + {(a, k)}, used)
  {
    hide WithFlags;
    var w: MsigMap := WithFlags(m, refs, used);
    var w1: MsigMap, w2: MsigMap := w[a := w[a][k := w[a][k].(isUsed := used)]], WithFlags(m, refs + {(a, k)}, used);
    forall x | x in m ensures w1[x] == w2[x] {
      forall i | 0 <= i < |m[x]| ensures w1[x][i] == w2[x][i] {
        assert w2[x][i] == FlagAt(m, refs + {(a, k)}, used, x, i);
        assert w[x][i] == FlagAt(m, refs, used, x, i);
      }
    }
  }

  // ---- What removing the last block establishes ----

  function LastOf(blocks: seq<BlockEntry>): BlockEntry
    requires blocks != []
  {
    blocks[|blocks| - 1]
  }

  ghost predicate Shortened(before: seq<BlockEntry>, after: seq<BlockEntry>) {
    before != [] && after == before[..|before| - 1]
  }

  lemma {:induction false} ChainHeights(env: Env, blocks: seq<BlockEntry>)
    requires ChainOk(env, blocks)
    ensures HeightsClaimed(blocks)
    ensures forall j :: 0 <= j < |blocks| ==> blocks[j].height == j
  {
    hide BlockAccepted, ZoneOk;
    forall j | 0 <= j < |blocks|
      ensures ClaimsHeight(blocks[j].bl) && blocks[j].bl.base.inputs[0].blockIndex == j && blocks[j].height == j
    {
      assert BlockOk(env, blocks[..j], blocks[j]);
      AcceptedEntry(env, blocks[..j], blocks[j]);
    }
  }

  /**
   Popping the last block, after the flags in `gone` were cleared by later pops: the indexes of the blocks below come
   back, but for the flags of what was consumed. No "consistency broken" branch is taken if and only if the block
   consumed nothing twice and nothing of what is cleared already.
   */
  lemma {:induction false} LastBlockUndone(env: Env, blocks: seq<BlockEntry>, gone: set<(uint64, nat)>)
    requires ChainOk(env, blocks) && blocks != []
    ensures var n := |blocks| - 1;
            var txs := Txs(blocks[n].transactions);
            var c, below, refs := Cleared(Rebuild(blocks), gone), Rebuild(blocks[..n]), MsigRefs(TxsInputs(txs));
            && ListsTransactions(blocks[n].transactions, blocks[n].bl)
            && PopTxsDefined(c, txs)
            && PopTxs(c, txs) == (Cleared(below, gone + refs).(blockIds := c.blockIds),
                                  DistinctMsigs(TxsInputs(txs)) && refs !! gone)
            && IdsOf(blocks, c.blockIds)
            && c.blockIds == below.blockIds + [BlockHash(blocks[n].bl)]
  {
    hide BlockOk, ChainOk, BlockAccepted, AddTxs, Recorded, PopTxs, PopTxsDefined, HeaderAccepted, NoEmptyTables;
    hide DistinctMsigs, ClearedTables;
    var n := |blocks| - 1;
    var e := blocks[n];
    ChainPrefix(env, blocks, n);
    OkAt(env, blocks, n);
    AcceptedEntry(env, blocks[..n], e);
    StoredArePushable(env, blocks[..n], e);
    var txs, below := Txs(e.transactions), Rebuild(blocks[..n]);
    RebuildNoEmpty(blocks[..n]);
    PopTxsClears(below, n, txs, gone);
    PopTxsIds(Cleared(AddTxs(below, n, txs), gone), Rebuild(blocks).blockIds, txs);
    ChainRecorded(env, blocks);
    ChainRecorded(env, blocks[..n]);
    IdsExtend(blocks, Rebuild(blocks).blockIds, below.blockIds);
  }

  lemma {:induction false} IdsExtend(blocks: seq<BlockEntry>, ids: seq<Hash>, below: seq<Hash>)
    requires blocks != [] && IdsOf(blocks, ids) && IdsOf(blocks[..|blocks| - 1], below)
    ensures ids == below + [BlockHash(blocks[|blocks| - 1].bl)]
  {
  }

  /** Pushable transactions are distinct and new. */
  lemma {:induction false} PushableFresh(c: Cache, height: nat, txs: seq<Transaction>, i: nat)
    requires AllPushable(c, height, txs) && i < |txs|
    ensures TxHash(txs[i]) !in c.txMap && txs[i] !in txs[..i]
  {
    hide AddTxs, MsigsSpendable;
    assert PushableAt(c, height, txs, i);
    AddTxsHashes(c, height, txs[..i]);
  }

  lemma {:induction false} FreshBlock(c: Cache, height: nat, b: Block)
    requires NamesTxs(b) && AllPushable(c, height, BlockTxs(b))
    ensures Distinct(b.txHashes)
    ensures forall h :: h in HashSet(b.txHashes) ==> h !in c.txMap && h in AddTxs(c, height, BlockTxs(b)).txMap
  {
    hide AddTxs, AllPushable;
    var txs := BlockTxs(b);
    AddTxsHashes(c, height, txs);
    forall h | h in HashSet(b.txHashes) ensures h !in c.txMap && h.TxHash? && h.tx in txs {
      var i :| 0 <= i < |b.txHashes| && b.txHashes[i] == h;
      PushableFresh(c, height, txs, i + 1);
      assert h == TxHash(txs[i + 1]);
    }
    forall i, j | 0 <= i < j < |b.txHashes| ensures b.txHashes[i] != b.txHashes[j] {
      PushableFresh(c, height, txs, j + 1);
      assert txs[..j + 1][i + 1] == txs[i + 1];
      assert b.txHashes[i] == TxHash(txs[i + 1]) && b.txHashes[j] == TxHash(txs[j + 1]);
    }
  }

  lemma {:induction false} SemanticNamed(b: Block)
    requires NamesTxs(b) && SemanticBlock(b)
    ensures PoolOk(Named(b.txHashes))
  {
    hide Semantic;
    var txs := BlockTxs(b);
    forall h | h in HashSet(b.txHashes) ensures h.TxHash? && Semantic(h.tx) {
      var i :| 0 <= i < |b.txHashes| && b.txHashes[i] == h;
      assert h == TxHash(txs[i + 1]);
    }
  }

  lemma {:induction false} FewerRecorded(env: Env, blocks: seq<BlockEntry>)
    requires ChainOk(env, blocks) && blocks != []
    ensures Rebuild(blocks[..|blocks| - 1]).txMap.Keys <= Rebuild(blocks).txMap.Keys
  {
    hide ChainOk, Rebuild;
    LastBlockPooled(env, blocks);
  }

  /** The last block's transactions are known nowhere below it, so they can go back to the pool. */
  lemma {:induction false} LastBlockPooled(env: Env, blocks: seq<BlockEntry>)
    requires ChainOk(env, blocks) && blocks != []
    ensures var n := |blocks| - 1;
            var bl := blocks[n].bl;
            && NamesTxs(bl) && PoolOk(Named(bl.txHashes)) && Distinct(bl.txHashes)
            && Txs(blocks[n].transactions) == BlockTxs(bl)
            && (forall h :: h in HashSet(bl.txHashes) ==>
                              h !in Rebuild(blocks[..n]).txMap && h in Rebuild(blocks).txMap)
            && (forall h :: h in Rebuild(blocks[..n]).txMap ==> h in Rebuild(blocks).txMap)
  {
    var n := |blocks| - 1;
    var e, below := blocks[n], blocks[..n];
    ChainPrefix(env, blocks, n);
    assert BlockOk(env, below, e);
    assert SemanticBlock(e.bl);
    hide BlockOk, ChainOk, AddTxs, Recorded, HeaderAccepted, AllPushable, SemanticBlock, HashSet, Distinct;
    hide Named, NamesTxs, PoolOk, TxsVerdict;
    AcceptedEntry(env, below, e);
    StoredArePushable(env, below, e);
    FreshBlock(Rebuild(below), n, e.bl);
    SemanticNamed(e.bl);
    AddTxsHashes(Rebuild(below), n, BlockTxs(e.bl));
  }

  lemma {:induction false} RebuildIndicesStep(pid: PaymentIdOf, blocks: seq<BlockEntry>)
    requires blocks != []
    ensures var n := |blocks| - 1;
            && RebuildPayments(pid, blocks) - PaymentsOf(pid, Txs(blocks[n].transactions))
               == RebuildPayments(pid, blocks[..n])
            && RebuildTimestamps(blocks) - multiset{(blocks[n].bl.timestamp, BlockHash(blocks[n].bl))}
               == RebuildTimestamps(blocks[..n])
  {
  }

  /** Every accepted chain can be rebuilt. */
  lemma {:induction false} ChainRebuildDefined(env: Env, blocks: seq<BlockEntry>)
    requires ChainOk(env, blocks)
    ensures RebuildDefined(blocks)
  {
    hide BlockOk, AddTxs, Rebuild, InRange;
    forall j | 0 <= j < |blocks| ensures BlockMarkable(blocks, j) {
      ChainPrefix(env, blocks, j);
      assert BlockOk(env, blocks[..j], blocks[j]);
      StoredArePushable(env, blocks[..j], blocks[j]);
      var txs := Txs(blocks[j].transactions);
      forall n | 0 <= n < |txs| ensures MarkableAt(Rebuild(blocks[..j]), j, txs, n) {
        assert PushableAt(Rebuild(blocks[..j]), j, txs, n);
      }
    }
  }

  lemma {:induction false} RebuildStep(blocks: seq<BlockEntry>, j: nat)
    requires j < |blocks|
    ensures Rebuild(blocks[..j + 1]) == AddBlock(Rebuild(blocks[..j]), j, blocks[j])
  {
    assert blocks[..j + 1][..j] == blocks[..j];
  }

  lemma {:induction false} AddTxsStep(c: Cache, height: nat, txs: seq<Transaction>, n: nat)
    requires n < |txs|
    ensures AddTxs(c, height, txs[..n + 1]) == AddTx(AddTxs(c, height, txs[..n]), TransactionIndex(height, n), txs[n])
  {
    assert txs[..n + 1][..n] == txs[..n];
  }

  lemma {:induction false} NothingAdded(c: Cache, height: nat)
    ensures AddTxs(c, height, []) == c && Rebuild([]) == EMPTY_CACHE
  {
  }

  lemma {:induction false} MarkableOf(blocks: seq<BlockEntry>, j: nat, n: nat)
    requires RebuildDefined(blocks) && j < |blocks| && n < |blocks[j].transactions|
    ensures MarkableAt(Rebuild(blocks[..j]), j, Txs(blocks[j].transactions), n)
  {
    hide Rebuild, MarkableAt;
    assert BlockMarkable(blocks, j);
  }

  // ---- The exits that do not undo ----

  /** Guards that accept everything, with given transaction sizes and a given limit on the size of a block. */
  function PermissiveEnv(zone: bool, txSize: Transaction -> nat, limit: nat): Env {
    Env((blocks, b) => true, (blocks, b) => 1, height => zone, 0, (blocks, time) => true,
        (blocks, outs, tx, i) => Pass, (tx, i, target) => true, txSize, height => limit, 1, sizes => 0, height => 1,
        height => false, (blocks, b, coins) => 0, (blocks, branch) => true, (blocks, pool, b) => true,
        (blocks, branch, b) => true, (blocks, branch, b) => 1, height => false, tx => true, image => true)
  }

  /** A first block whose coinbase has one multisignature output of amount 0. */
  function FirstBlock(extra: seq<nat>, hashes: seq<Hash>): Block {
    Block(0, 0, NullHash, Transaction([BaseInput(0)], [Output(0, MultisignatureOutput([], 1))], 0, extra, []), hashes)
  }

  /** A transaction that consumes that output. */
  function Spender(extra: nat): Transaction {
    Transaction([MultisignatureInput(0, 1, 0)], [], 0, [extra], [])
  }

  lemma {:induction false} FirstHeader(env: Env, c: Cache, b: Block)
    requires env.headerOk([], b) && env.difficulty([], b) != 0 && env.unlockWindow == 0
    requires c.blockIds == [] && b == FirstBlock(b.base.extra, b.txHashes)
    ensures HeaderAccepted(env, [], c, b) && SumOutputs(b.base.outputs) == 0
  {
    assert b.base.outputs[..0] == [];
  }

  lemma {:induction false} CoinbaseStays(b: Block)
    ensures AddTxs(Rebuild([]), 0, [b.base]) != Rebuild([])
  {
    AddTxsHashes(Rebuild([]), 0, [b.base]);
    assert TxHash(b.base) in AddTxs(Rebuild([]), 0, [b.base]).txMap;
  }

  function SizedEnv(): Env {
    PermissiveEnv(false, (tx: Transaction) => 100 + |tx.extra|, 1000)
  }

  /** A coinbase of 1100 bytes under a limit of 1000: the size exit leaves it in the transaction map. */
  lemma {:induction false} SizeExitExample()
    ensures var b := FirstBlock(seq(1000, _ => 0), []);
            && NamesTxs(b) && SemanticBlock(b) && BlockTxs(b) == [b.base]
            && VerdictOf(SizedEnv(), [], b) == Oversized
            && AddTxs(Rebuild([]), 0, BlockTxs(b)) != Rebuild([])
  {
    var env, b := SizedEnv(), FirstBlock(seq(1000, _ => 0), []);
    assert BlockTxs(b) == [b.base] && [b.base][..0] == [];
    assert SumSizes(env, [b.base]) == 1100;
    FirstHeader(env, Rebuild([]), b);
    CoinbaseStays(b);
    hide HeaderAccepted, AddTxs, Rebuild, SumSizes;
    assert TxsVerdict(env, [], Rebuild([]), [b.base], 1) == Pass;
  }

  /** A transaction that consumes an output of its own block makes the block vector throw, and the coinbase stays. */
  lemma {:induction false} ThrowExample()
    ensures var b := FirstBlock([], [TxHash(Spender(1))]);
            && NamesTxs(b) && SemanticBlock(b) && BlockTxs(b) == [b.base, Spender(1)]
            && VerdictOf(SizedEnv(), [], b) == Threw
            && AddTxs(Rebuild([]), 0, [b.base]) != Rebuild([])
  {
    var env, b := SizedEnv(), FirstBlock([], [TxHash(Spender(1))]);
    var c := Rebuild([]);
    assert BlockTxs(b) == [b.base, Spender(1)];
    FirstHeader(env, c, b);
    CoinbaseStays(b);
    SpenderThrows(env, b);
    hide HeaderAccepted, AddTxs, Rebuild, TxVerdict;
    var txs := BlockTxs(b);
    assert txs[..1] == [b.base];
    assert TxsVerdict(env, [], c, txs, 1) == Pass;
    assert TxsVerdict(env, [], c, txs, 2) == Throws;
  }

  lemma {:induction false} FirstOutput(b: Block)
    requires b == FirstBlock(b.base.extra, b.txHashes)
    ensures var m: MsigMap := AddTxs(Rebuild([]), 0, [b.base]).tables.msigs;
            0 in m && m[0] == [MsigUsage(TransactionIndex(0, 0), 0, false)]
    ensures MsigRefs(b.base.inputs) == {}
  {
    var start, idx, txs := Rebuild([]), TransactionIndex(0, 0), [b.base];
    var c := AddTxs(start, 0, txs);
    assert txs[..0] == [] && b.base.outputs[..0] == [];
    assert MsigRefs(b.base.inputs) == {} by {
      assert forall i :: 0 <= i < |b.base.inputs| ==> b.base.inputs[i] == BaseInput(0);
    }
    assert AddTxs(start, 0, txs[..0]) == start;
    assert c == AddTx(start, idx, b.base);
    assert Marked(start.tables, b.base.inputs) == start.tables;
    assert c.tables == AddOutput(start.tables, idx, 0, b.base.outputs[0]);
  }

  lemma {:induction false} SpenderThrows(env: Env, b: Block)
    requires env == SizedEnv() && b == FirstBlock([], b.txHashes)
    ensures TxVerdict(env, [], AddTxs(Rebuild([]), 0, [b.base]), Spender(1)) == Throws
  {
    FirstOutput(b);
    var c, tx := AddTxs(Rebuild([]), 0, [b.base]), Spender(1);
    hide AddTxs, Rebuild;
    assert InputVerdict(env, [], c, tx, 0) == Throws;
    assert InputsVerdict(env, [], c, tx, 0) == Pass;
  }
}
