/** The explorer's indices (`BlockchainIndices.cpp`), kept in step with the chain by add and remove. */
module BlockchainIndices {
  import opened LedgerTypes

  type Payments = multiset<(nat, Hash)>
  type Timestamps = multiset<(nat, Hash)>
  type PaymentIdOf = Transaction -> Option<nat>

  // ---- Payment ids ----

  function PaymentOf(pid: PaymentIdOf, tx: Transaction): Payments {
    match pid(tx)
    case Some(id) => multiset{(id, TxHash(tx))}
    case None => multiset{}
  }

  function PaymentsOf(pid: PaymentIdOf, txs: seq<Transaction>): Payments {
    if txs == [] then multiset{} else PaymentsOf(pid, txs[..|txs| - 1]) + PaymentOf(pid, txs[|txs| - 1])
  }

  lemma {:induction false} PaymentsStep(pid: PaymentIdOf, txs: seq<Transaction>, n: nat)
    requires 0 < n <= |txs|
    ensures PaymentsOf(pid, txs[..n]) == PaymentsOf(pid, txs[..n - 1]) + PaymentOf(pid, txs[n - 1])
  {
    assert txs[..n][..n - 1] == txs[..n - 1];
  }

  /** The rebuild loop of `loadBlockchainIndices` for the payment-id index. */
  function RebuildPayments(pid: PaymentIdOf, blocks: seq<BlockEntry>): Payments {
    if blocks == [] then multiset{}
    else RebuildPayments(pid, blocks[..|blocks| - 1]) + PaymentsOf(pid, Txs(blocks[|blocks| - 1].transactions))
  }

  /** `PaymentIdIndex` (enabled): a multimap from payment id to transaction hash. */
  class PaymentIdIndex {
    const pid: PaymentIdOf
    var index: Payments

    constructor (pid: PaymentIdOf)
      ensures this.pid == pid && index == multiset{}
    {
      this.pid := pid;
      index := multiset{};
    }

    method Add(tx: Transaction) returns (added: bool)
      modifies this
      ensures index == old(index) + PaymentOf(pid, tx)
      ensures added <==> pid(tx).Some?
    {
      match pid(tx)
      case None => added := false;
      case Some(id) =>
        index := index + multiset{(id, TxHash(tx))};
        added := true;
    }

    /** Removes one matching pair, whichever the scan of the equal range meets first. */
    method Remove(tx: Transaction) returns (removed: bool)
      modifies this
      ensures index == old(index) - PaymentOf(pid, tx)
      ensures removed <==> pid(tx).Some? && (pid(tx).value, TxHash(tx)) in old(index)
    {
      removed := false;
      match pid(tx)
      case None =>
      case Some(id) =>
        if (id, TxHash(tx)) in index {
          index := index - multiset{(id, TxHash(tx))};
          removed := true;
        }
    }

    method Clear()
      modifies this
      ensures index == multiset{}
    {
      index := multiset{};
    }
  }

  // ---- Block timestamps ----

  function RebuildTimestamps(blocks: seq<BlockEntry>): Timestamps {
    if blocks == [] then multiset{}
    else
      var bl := blocks[|blocks| - 1].bl;
      RebuildTimestamps(blocks[..|blocks| - 1]) + multiset{(bl.timestamp, BlockHash(bl))}
  }

  /** `TimestampBlocksIndex` (enabled). */
  class TimestampBlocksIndex {
    var index: Timestamps

    constructor ()
      ensures index == multiset{}
    {
      index := multiset{};
    }

    method Add(timestamp: nat, hash: Hash)
      modifies this
      ensures index == old(index) + multiset{(timestamp, hash)}
    {
      index := index + multiset{(timestamp, hash)};
    }

    method Remove(timestamp: nat, hash: Hash) returns (removed: bool)
      modifies this
      ensures index == old(index) - multiset{(timestamp, hash)}
      ensures removed <==> (timestamp, hash) in old(index)
    {
      removed := (timestamp, hash) in index;
      if removed {
        index := index - multiset{(timestamp, hash)};
      }
    }

    method Clear()
      modifies this
      ensures index == multiset{}
    {
      index := multiset{};
    }
  }

  // ---- Generated transactions ----

  datatype Generated = Generated(index: map<nat, nat>, last: nat)

  /** The height that a block claims in its coinbase; `boost::get` throws for any other first input. */
  ghost predicate ClaimsHeight(b: Block) {
    b.base.inputs != [] && b.base.inputs[0].BaseInput?
  }

  ghost function GeneratedAdd(g: Generated, b: Block): Generated
    requires ClaimsHeight(b)
  {
    var h := b.base.inputs[0].blockIndex;
    if |g.index| != h || h in g.index then g
    else Generated(g.index[h := g.last + |b.txHashes| + 1], g.last + |b.txHashes| + 1)
  }

  /** The heights with a total are consecutive from 0. */
  ghost predicate Dense(index: map<nat, nat>) {
    forall h :: h in index <==> 0 <= h < |index|
  }

  /** Removing succeeds for the last height only, and the running number becomes the total below it. */
  ghost function GeneratedRemove(g: Generated, b: Block): (bool, Generated)
    requires ClaimsHeight(b) && Dense(g.index)
  {
    var h := b.base.inputs[0].blockIndex;
    if h != |g.index| - 1 then (false, g)
    else (true, Generated(g.index - {h}, if h != 0 then g.index[h - 1] else 0))
  }

  /** Number of transactions in the blocks, coinbases included. */
  function CountTxs(blocks: seq<BlockEntry>): nat {
    if blocks == [] then 0 else CountTxs(blocks[..|blocks| - 1]) + |blocks[|blocks| - 1].bl.txHashes| + 1
  }

  ghost predicate HeightsClaimed(blocks: seq<BlockEntry>) {
    forall j :: 0 <= j < |blocks| ==> ClaimsHeight(blocks[j].bl) && blocks[j].bl.base.inputs[0].blockIndex == j
  }

  /** The rebuild loop for this index, started on a fresh object. */
  function TotalsOf(blocks: seq<BlockEntry>): Generated {
    if blocks == [] then Generated(map[], 0)
    else
      var n := |blocks| - 1;
      var below := TotalsOf(blocks[..n]);
      var total := below.last + |blocks[n].bl.txHashes| + 1;
      Generated(below.index[n := total], total)
  }

  lemma {:induction false} TotalsShape(blocks: seq<BlockEntry>)
    ensures |TotalsOf(blocks).index| == |blocks|
    ensures forall h :: h in TotalsOf(blocks).index <==> 0 <= h < |blocks|
  {
    if blocks != [] {
      TotalsShape(blocks[..|blocks| - 1]);
    }
  }

  /** Each height maps to the number of transactions up to and including it. */
  lemma {:induction false} TotalsCount(blocks: seq<BlockEntry>, h: nat)
    requires h < |blocks|
    ensures h in TotalsOf(blocks).index
    ensures TotalsOf(blocks).index[h] == CountTxs(blocks[..h + 1]) == TotalsOf(blocks[..h + 1]).last
  {
    var n := |blocks| - 1;
    if h < n {
      TotalsCount(blocks[..n], h);
      assert blocks[..n][..h + 1] == blocks[..h + 1];
    } else {
      assert blocks[..n + 1] == blocks;
      if n > 0 {
        TotalsCount(blocks[..n], n - 1);
        assert blocks[..n][..n] == blocks[..n];
      }
    }
  }

  /** Adding the next block of a chain extends the totals by that block. */
  lemma {:induction false} TotalsAdd(blocks: seq<BlockEntry>, e: BlockEntry)
    requires ClaimsHeight(e.bl) && e.bl.base.inputs[0].blockIndex == |blocks|
    ensures GeneratedAdd(TotalsOf(blocks), e.bl) == TotalsOf(blocks + [e])
  {
    TotalsShape(blocks);
    assert (blocks + [e])[..|blocks|] == blocks;
  }

  /** Removing the last block of a chain gives back exactly the totals of the blocks below it. */
  lemma {:induction false} TotalsRemove(blocks: seq<BlockEntry>)
    requires blocks != [] && HeightsClaimed(blocks)
    ensures Dense(TotalsOf(blocks).index)
    ensures GeneratedRemove(TotalsOf(blocks), blocks[|blocks| - 1].bl) == (true, TotalsOf(blocks[..|blocks| - 1]))
  {
    var n := |blocks| - 1;
    TotalsShape(blocks);
    TotalsShape(blocks[..n]);
    if n > 0 {
      TotalsCount(blocks, n - 1);
      TotalsCount(blocks[..n], n - 1);
      assert blocks[..n][..n] == blocks[..n] && blocks[..n - 1 + 1] == blocks[..n];
    }
    assert TotalsOf(blocks).index - {n} == TotalsOf(blocks[..n]).index;
  }

  /** `GeneratedTransactionsIndex` (enabled). */
  class GeneratedTransactionsIndex {
    var index: map<nat, nat>
    var lastGeneratedTxNumber: nat

    ghost function View(): Generated
      reads this
    {
      Generated(index, lastGeneratedTxNumber)
    }

    constructor ()
      ensures View() == TotalsOf([])
    {
      index, lastGeneratedTxNumber := map[], 0;
    }

    method Add(b: Block) returns (status: bool)
      requires ClaimsHeight(b)
      modifies this
      ensures View() == GeneratedAdd(old(View()), b)
    {
      var h := b.base.inputs[0].blockIndex;
      if |index| != h {
        return false;
      }
      status := h !in index;
      if status {
        index := index[h := lastGeneratedTxNumber + |b.txHashes| + 1];
        lastGeneratedTxNumber := lastGeneratedTxNumber + |b.txHashes| + 1;
      }
    }

    method Remove(b: Block) returns (removed: bool)
      requires ClaimsHeight(b) && Dense(index)
      modifies this
      ensures (removed, View()) == GeneratedRemove(old(View()), b)
    {
      var h := b.base.inputs[0].blockIndex;
      if h != |index| - 1 {
        return false;
      }
      index := index - {h};
      if h != 0 {
        lastGeneratedTxNumber := index[h - 1];
      } else {
        lastGeneratedTxNumber := 0;
      }
      removed := true;
    }

    /** `clear` forgets the totals but not the running number. */
    method Clear()
      modifies this
      ensures View() == Generated(map[], old(lastGeneratedTxNumber))
    {
      index := map[];
    }
  }
}
