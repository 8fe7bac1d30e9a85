/** The per-amount output vectors of an accepted chain: where they point, their order, and their readers. */
module OutputIndex {
  import opened LedgerTypes
  import opened LedgerCache
  import opened LedgerChain

  /** An output together with the place where the chain stores it. */
  datatype Located = Located(ref: OutputRef, out: Output)

  function LocateOutputs(idx: TransactionIndex, outs: seq<Output>): (r: seq<Located>)
    ensures |r| == |outs|
    ensures forall o :: 0 <= o < |outs| ==> r[o] == Located(OutputRef(idx, o), outs[o])
  {
    seq(|outs|, o requires 0 <= o < |outs| => Located(OutputRef(idx, o), outs[o]))
  }

  function LocateTxs(height: nat, txs: seq<Transaction>): seq<Located> {
    if txs == [] then []
    else LocateTxs(height, txs[..|txs| - 1])
         + LocateOutputs(TransactionIndex(height, |txs| - 1), txs[|txs| - 1].outputs)
  }

  /** All outputs of the chain, in chain order. */
  function LocateChain(blocks: seq<BlockEntry>): seq<Located> {
    if blocks == [] then []
    else LocateChain(blocks[..|blocks| - 1]) + LocateTxs(|blocks| - 1, Txs(blocks[|blocks| - 1].transactions))
  }

  predicate Kind(out: Output, amount: uint64, msig: bool) {
    out.amount == amount && out.target.MultisignatureOutput? == msig
  }

  /** The places of the outputs of one amount and kind, in order. */
  function Select(locs: seq<Located>, amount: uint64, msig: bool): seq<OutputRef> {
    if locs == [] then []
    else
      var last := locs[|locs| - 1];
      Select(locs[..|locs| - 1], amount, msig) + (if Kind(last.out, amount, msig) then [last.ref] else [])
  }

  function UsageRefs(usages: seq<MsigUsage>): (r: seq<OutputRef>)
    ensures |r| == |usages|
    ensures forall i :: 0 <= i < |usages| ==> r[i] == OutputRef(usages[i].txIndex, usages[i].output)
  {
    seq(|usages|, i requires 0 <= i < |usages| => OutputRef(usages[i].txIndex, usages[i].output))
  }

  function KeyVector(t: OutputTables, a: uint64): seq<OutputRef> {
    if a in t.keys then t.keys[a] else []
  }

  function MsigVector(t: OutputTables, a: uint64): seq<OutputRef> {
    if a in t.msigs then UsageRefs(t.msigs[a]) else []
  }

  /** The tables list exactly the located outputs, amount by amount, in chain order. */
  ghost predicate Lists(t: OutputTables, locs: seq<Located>) {
    forall a: uint64 ::
      KeyVector(t, a) == Select(locs, a, false) && MsigVector(t, a) == Select(locs, a, true)
  }

  lemma {:induction false} AddOutputLists(t: OutputTables, idx: TransactionIndex, o: nat, out: Output,
                                          locs: seq<Located>)
    requires Lists(t, locs)
    ensures Lists(AddOutput(t, idx, o, out), locs + [Located(OutputRef(idx, o), out)])
  {
    var all, t1 := locs + [Located(OutputRef(idx, o), out)], AddOutput(t, idx, o, out);
    assert all[..|all| - 1] == locs;
    forall a: uint64
      ensures KeyVector(t1, a) == Select(all, a, false) && MsigVector(t1, a) == Select(all, a, true)
    {
      assert KeyVector(t, a) == Select(locs, a, false) && MsigVector(t, a) == Select(locs, a, true);
    }
  }

  lemma {:induction false} AddOutputsLists(t: OutputTables, idx: TransactionIndex, outs: seq<Output>,
                                           locs: seq<Located>)
    requires Lists(t, locs)
    ensures Lists(AddOutputs(t, idx, outs), locs + LocateOutputs(idx, outs))
  {
    hide Lists;
    if outs == [] {
      assert locs + LocateOutputs(idx, outs) == locs;
    } else {
      var n := |outs| - 1;
      AddOutputsLists(t, idx, outs[..n], locs);
      AddOutputLists(AddOutputs(t, idx, outs[..n]), idx, n, outs[n], locs + LocateOutputs(idx, outs[..n]));
      assert locs + LocateOutputs(idx, outs)
          == locs + LocateOutputs(idx, outs[..n]) + [Located(OutputRef(idx, n), outs[n])];
    }
  }

  lemma {:induction false} MarkedLists(t: OutputTables, inputs: seq<Input>, locs: seq<Located>)
    requires Lists(t, locs)
    ensures Lists(Marked(t, inputs), locs)
  {
    forall a: uint64
      ensures KeyVector(Marked(t, inputs), a) == Select(locs, a, false)
      ensures MsigVector(Marked(t, inputs), a) == Select(locs, a, true)
    {
      assert KeyVector(t, a) == Select(locs, a, false) && MsigVector(t, a) == Select(locs, a, true);
      assert MsigVector(Marked(t, inputs), a) == MsigVector(t, a);
    }
  }

  lemma {:induction false} AddTxsLists(c: Cache, height: nat, txs: seq<Transaction>, locs: seq<Located>)
    requires Lists(c.tables, locs)
    ensures Lists(AddTxs(c, height, txs).tables, locs + LocateTxs(height, txs))
  {
    hide Lists;
    if txs == [] {
      assert locs + LocateTxs(height, txs) == locs;
    } else {
      var n := |txs| - 1;
      AddTxsLists(c, height, txs[..n], locs);
      var before := AddTxs(c, height, txs[..n]);
      var idx := TransactionIndex(height, n);
      MarkedLists(before.tables, txs[n].inputs, locs + LocateTxs(height, txs[..n]));
      AddOutputsLists(Marked(before.tables, txs[n].inputs), idx, txs[n].outputs, locs + LocateTxs(height, txs[..n]));
      assert locs + LocateTxs(height, txs) == locs + LocateTxs(height, txs[..n]) + LocateOutputs(idx, txs[n].outputs);
    }
  }

  /** The output vectors are the chain's outputs, grouped by amount and kind, in chain order. */
  lemma {:induction false} RebuildLists(blocks: seq<BlockEntry>)
    ensures Lists(Rebuild(blocks).tables, LocateChain(blocks))
  {
    if blocks == [] {
    } else {
      hide Lists;
      var n := |blocks| - 1;
      RebuildLists(blocks[..n]);
      AddTxsLists(Rebuild(blocks[..n]), n, Txs(blocks[n].transactions), LocateChain(blocks[..n]));
    }
  }

  // ---- Every entry points to a stored output, and the order is the chain order ----

  ghost predicate StoredAt(blocks: seq<BlockEntry>, l: Located) {
    var idx := l.ref.txIndex;
    && idx.block < |blocks|
    && idx.transaction < |blocks[idx.block].transactions|
    && l.ref.output < |blocks[idx.block].transactions[idx.transaction].tx.outputs|
    && blocks[idx.block].transactions[idx.transaction].tx.outputs[l.ref.output] == l.out
  }

  predicate Before(x: OutputRef, y: OutputRef) {
    || x.txIndex.block < y.txIndex.block
    || (x.txIndex.block == y.txIndex.block && x.txIndex.transaction < y.txIndex.transaction)
    || (x.txIndex == y.txIndex && x.output < y.output)
  }

  ghost predicate InOrder(locs: seq<Located>) {
    forall i, j :: 0 <= i < j < |locs| ==> Before(locs[i].ref, locs[j].ref)
  }

  lemma {:induction false} InOrderConcat(x: seq<Located>, y: seq<Located>)
    requires InOrder(x) && InOrder(y)
    requires forall i, j :: 0 <= i < |x| && 0 <= j < |y| ==> Before(x[i].ref, y[j].ref)
    ensures InOrder(x + y)
  {
  }

  ghost predicate InTxs(height: nat, txs: seq<Transaction>, l: Located) {
    && l.ref.txIndex.block == height && l.ref.txIndex.transaction < |txs|
    && l.ref.output < |txs[l.ref.txIndex.transaction].outputs|
    && txs[l.ref.txIndex.transaction].outputs[l.ref.output] == l.out
  }

  lemma {:induction false} LocatedTxs(height: nat, txs: seq<Transaction>)
    ensures InOrder(LocateTxs(height, txs))
    ensures forall i :: 0 <= i < |LocateTxs(height, txs)| ==> InTxs(height, txs, LocateTxs(height, txs)[i])
  {
    if txs != [] {
      var n := |txs| - 1;
      LocatedTxs(height, txs[..n]);
      var below, here := LocateTxs(height, txs[..n]), LocateOutputs(TransactionIndex(height, n), txs[n].outputs);
      assert LocateTxs(height, txs) == below + here;
      hide LocateTxs;
      forall i | 0 <= i < |below| ensures InTxs(height, txs, below[i]) && below[i].ref.txIndex.transaction < n {
        assert InTxs(height, txs[..n], below[i]);
      }
      assert InOrder(here);
      InOrderConcat(below, here);
    }
  }

  lemma {:induction false} LocatedChain(blocks: seq<BlockEntry>)
    ensures InOrder(LocateChain(blocks))
    ensures forall i :: 0 <= i < |LocateChain(blocks)| ==> StoredAt(blocks, LocateChain(blocks)[i])
  {
    if blocks != [] {
      var n := |blocks| - 1;
      var txs := Txs(blocks[n].transactions);
      var below, here := LocateChain(blocks[..n]), LocateTxs(n, txs);
      LocatedChain(blocks[..n]);
      LocatedTxs(n, txs);
      assert LocateChain(blocks) == below + here;
      hide LocateChain, LocateTxs;
      forall i | 0 <= i < |below| ensures StoredAt(blocks, below[i]) && below[i].ref.txIndex.block < n {
        assert StoredAt(blocks[..n], below[i]);
      }
      forall j | 0 <= j < |here| ensures StoredAt(blocks, here[j]) && here[j].ref.txIndex.block == n {
        assert InTxs(n, txs, here[j]);
      }
      InOrderConcat(below, here);
    }
  }

  /** A position of a selection comes from a position of the list, in the same order. */
  lemma {:induction false} SelectFrom(locs: seq<Located>, a: uint64, msig: bool, i: nat) returns (p: nat)
    requires i < |Select(locs, a, msig)|
    ensures p < |locs| && locs[p].ref == Select(locs, a, msig)[i] && Kind(locs[p].out, a, msig)
    ensures i == |Select(locs[..p], a, msig)|
  {
    var n := |locs| - 1;
    if i < |Select(locs[..n], a, msig)| {
      p := SelectFrom(locs[..n], a, msig, i);
      assert locs[..n][..p] == locs[..p];
    } else {
      p := n;
    }
  }

  lemma {:induction false} SelectMonotone(locs: seq<Located>, a: uint64, msig: bool, p: nat)
    requires p <= |locs|
    ensures Select(locs[..p], a, msig) <= Select(locs, a, msig)
  {
    if p < |locs| {
      SelectMonotone(locs[..|locs| - 1], a, msig, p);
      assert locs[..|locs| - 1][..p] == locs[..p];
    } else {
      assert locs[..p] == locs;
    }
  }

  lemma {:induction false} SelectLonger(locs: seq<Located>, a: uint64, msig: bool, q: nat, p: nat)
    requires q <= p <= |locs|
    ensures |Select(locs[..q], a, msig)| <= |Select(locs[..p], a, msig)|
  {
    SelectMonotone(locs[..p], a, msig, q);
    assert locs[..p][..q] == locs[..q];
  }

  /**
   Every entry of every output vector of any chain names a stored output of that amount and kind, so the
   index errors that the readers guard against cannot occur, and entries are strictly in chain order.
   */
  lemma {:induction false} VectorsPointBack(blocks: seq<BlockEntry>, a: uint64, msig: bool, i: nat, j: nat)
    requires var v := Select(LocateChain(blocks), a, msig); i < j < |v| || i == j < |v|
    ensures var v := Select(LocateChain(blocks), a, msig);
            && (exists out :: StoredAt(blocks, Located(v[i], out)) && Kind(out, a, msig))
            && (i < j ==> Before(v[i], v[j]))
  {
    var locs := LocateChain(blocks);
    LocatedChain(blocks);
    var p := SelectFrom(locs, a, msig, i);
    var q := SelectFrom(locs, a, msig, j);
    assert StoredAt(blocks, locs[p]) && locs[p] == Located(Select(locs, a, msig)[i], locs[p].out);
    if i < j && q <= p {
      SelectLonger(locs, a, msig, q, p);
    }
  }

  // ---- Recorded global indexes ----

  lemma {:induction false} SelectAt(locs: seq<Located>, p: nat)
    requires p < |locs|
    ensures var l := locs[p]; var msig := l.out.target.MultisignatureOutput?;
            var v := Select(locs, l.out.amount, msig);
            var gi := |Select(locs[..p], l.out.amount, msig)|;
            gi < |v| && v[gi] == l.ref
  {
    var l := locs[p];
    var msig := l.out.target.MultisignatureOutput?;
    assert locs[..p + 1][..p] == locs[..p];
    assert Select(locs[..p + 1], l.out.amount, msig) == Select(locs[..p], l.out.amount, msig) + [l.ref];
    SelectMonotone(locs, l.out.amount, msig, p + 1);
  }

  lemma {:induction false} GlobalIndexesCount(t: OutputTables, idx: TransactionIndex, outs: seq<Output>,
                                             locs: seq<Located>, o: nat)
    requires Lists(t, locs) && o < |outs|
    ensures GlobalIndexes(t, idx, outs)[o]
         == |Select(locs + LocateOutputs(idx, outs[..o]), outs[o].amount, outs[o].target.MultisignatureOutput?)|
  {
    var n := |outs| - 1;
    if o < n {
      GlobalIndexesCount(t, idx, outs[..n], locs, o);
      assert outs[..n][..o] == outs[..o];
    } else {
      AddOutputsLists(t, idx, outs[..n], locs);
      var before, a := AddOutputs(t, idx, outs[..n]), outs[n].amount;
      assert KeyVector(before, a) == Select(locs + LocateOutputs(idx, outs[..n]), a, false);
      assert MsigVector(before, a) == Select(locs + LocateOutputs(idx, outs[..n]), a, true);
    }
  }

  /** Outputs located before output `o` of transaction `k` in a block. */
  function LocatedBefore(locs: seq<Located>, height: nat, txs: seq<Transaction>, k: nat, o: nat): seq<Located>
    requires k < |txs| && o <= |txs[k].outputs|
  {
    locs + LocateTxs(height, txs[..k]) + LocateOutputs(TransactionIndex(height, k), txs[k].outputs[..o])
  }

  lemma {:induction false} EntryIndexesCount(c: Cache, height: nat, txs: seq<Transaction>, locs: seq<Located>,
                                            k: nat, o: nat)
    requires Lists(c.tables, locs) && k < |txs| && o < |txs[k].outputs|
    ensures EntryTxs(c, height, txs)[k].tx == txs[k]
    ensures |EntryTxs(c, height, txs)[k].globalIndexes| == |txs[k].outputs|
    ensures EntryTxs(c, height, txs)[k].globalIndexes[o]
         == |Select(LocatedBefore(locs, height, txs, k, o), txs[k].outputs[o].amount,
                    txs[k].outputs[o].target.MultisignatureOutput?)|
  {
    var n := |txs| - 1;
    if k < n {
      EntryIndexesCount(c, height, txs[..n], locs, k, o);
      assert txs[..n][..k] == txs[..k];
    } else {
      AddTxsLists(c, height, txs[..n], locs);
      var before := AddTxs(c, height, txs[..n]);
      MarkedLists(before.tables, txs[n].inputs, locs + LocateTxs(height, txs[..n]));
      GlobalIndexesCount(Marked(before.tables, txs[n].inputs), TransactionIndex(height, n), txs[n].outputs,
                         locs + LocateTxs(height, txs[..n]), o);
    }
  }

  lemma {:induction false} LocateTxsPrefix(height: nat, txs: seq<Transaction>, k: nat)
    requires k <= |txs|
    ensures LocateTxs(height, txs[..k]) <= LocateTxs(height, txs)
  {
    if k < |txs| {
      LocateTxsPrefix(height, txs[..|txs| - 1], k);
      assert txs[..|txs| - 1][..k] == txs[..k];
    } else {
      assert txs[..k] == txs;
    }
  }

  lemma {:induction false} LocateChainPrefix(blocks: seq<BlockEntry>, k: nat)
    requires k <= |blocks|
    ensures LocateChain(blocks[..k]) <= LocateChain(blocks)
  {
    if k < |blocks| {
      LocateChainPrefix(blocks[..|blocks| - 1], k);
      assert blocks[..|blocks| - 1][..k] == blocks[..k];
    } else {
      assert blocks[..k] == blocks;
    }
  }

  /** Position in the chain's output list of output `o` of transaction `k` of block `j`. */
  lemma {:induction false} LocatedPosition(blocks: seq<BlockEntry>, j: nat, k: nat, o: nat)
    requires j < |blocks| && k < |blocks[j].transactions| && o < |blocks[j].transactions[k].tx.outputs|
    ensures var txs := Txs(blocks[j].transactions);
            var before := LocatedBefore(LocateChain(blocks[..j]), j, txs, k, o);
            before + [Located(OutputRef(TransactionIndex(j, k), o), txs[k].outputs[o])] <= LocateChain(blocks)
  {
    var txs, idx := Txs(blocks[j].transactions), TransactionIndex(j, k);
    var low, mid := LocateChain(blocks[..j]), LocateTxs(j, txs[..k]);
    var here, item := LocateOutputs(idx, txs[k].outputs), Located(OutputRef(idx, o), txs[k].outputs[o]);
    var before := LocateOutputs(idx, txs[k].outputs[..o]);
    OutputsPrefix(idx, txs[k].outputs, o);
    hide LocateChain, LocateTxs, LocateOutputs, Txs;
    LocateChainStep(blocks, j);
    LocateTxsStep(j, txs, k);
    LocateChainPrefix(blocks, j + 1);
    LocateTxsPrefix(j, txs, k + 1);
    PrefixUnder(mid, before + [item], here, LocateTxs(j, txs));
    PrefixUnder(low, mid + (before + [item]), LocateTxs(j, txs), LocateChain(blocks));
    Associates(low, mid, before, [item]);
  }

  lemma {:induction false} Associates(a: seq<Located>, b: seq<Located>, c: seq<Located>, d: seq<Located>)
    ensures a + (b + (c + d)) == a + b + c + d
  {
  }

  lemma {:induction false} OutputsPrefix(idx: TransactionIndex, outs: seq<Output>, o: nat)
    requires o < |outs|
    ensures LocateOutputs(idx, outs[..o]) + [Located(OutputRef(idx, o), outs[o])] <= LocateOutputs(idx, outs)
  {
  }

  lemma {:induction false} LocateTxsStep(height: nat, txs: seq<Transaction>, k: nat)
    requires k < |txs|
    ensures LocateTxs(height, txs[..k + 1])
            == LocateTxs(height, txs[..k]) + LocateOutputs(TransactionIndex(height, k), txs[k].outputs)
  {
    assert txs[..k + 1][..k] == txs[..k];
  }

  lemma {:induction false} LocateChainStep(blocks: seq<BlockEntry>, j: nat)
    requires j < |blocks|
    ensures LocateChain(blocks[..j + 1]) == LocateChain(blocks[..j]) + LocateTxs(j, Txs(blocks[j].transactions))
  {
    assert blocks[..j + 1][..j] == blocks[..j];
  }

  lemma {:induction false} PrefixUnder(x: seq<Located>, y: seq<Located>, z: seq<Located>, all: seq<Located>)
    requires y <= z && x + z <= all
    ensures x + y <= all
  {
    assert x + y <= x + z;
  }

  /**
   For every stored output, the vector of its amount at its recorded global index points back to exactly
   that transaction and output.
   */
  lemma {:induction false} GlobalIndexesPointBack(env: Env, blocks: seq<BlockEntry>, j: nat, k: nat, o: nat)
    requires ChainAccepted(env, blocks)
    requires j < |blocks| && k < |blocks[j].transactions| && o < |blocks[j].transactions[k].tx.outputs|
    ensures |blocks[j].transactions[k].globalIndexes| == |blocks[j].transactions[k].tx.outputs|
    ensures var entry := blocks[j].transactions[k];
            var out, gi := entry.tx.outputs[o], entry.globalIndexes[o];
            var t := Rebuild(blocks).tables;
            var v := if out.target.MultisignatureOutput? then MsigVector(t, out.amount) else KeyVector(t, out.amount);
            gi < |v| && v[gi] == OutputRef(TransactionIndex(j, k), o)
  {
    assert BlockAccepted(env, blocks[..j], blocks[j]);
    hide *;
    var e := blocks[j];
    AcceptedEntry(env, blocks[..j], e);
    AcceptedTransactions(env, blocks[..j], e);
    var txs := Txs(e.transactions);
    RebuildLists(blocks[..j]);
    EntryIndexesCount(Rebuild(blocks[..j]), j, txs, LocateChain(blocks[..j]), k, o);
    IndexedLocation(blocks, j, k, o);
  }

  lemma {:induction false} IndexedLocation(blocks: seq<BlockEntry>, j: nat, k: nat, o: nat)
    requires j < |blocks| && k < |blocks[j].transactions| && o < |blocks[j].transactions[k].tx.outputs|
    ensures var txs := Txs(blocks[j].transactions);
            var out := txs[k].outputs[o];
            var before := LocatedBefore(LocateChain(blocks[..j]), j, txs, k, o);
            var gi := |Select(before, out.amount, out.target.MultisignatureOutput?)|;
            var t := Rebuild(blocks).tables;
            var v := if out.target.MultisignatureOutput? then MsigVector(t, out.amount) else KeyVector(t, out.amount);
            gi < |v| && v[gi] == OutputRef(TransactionIndex(j, k), o)
  {
    hide LocateChain;
    hide LocateTxs;
    hide LocateOutputs;
    hide Select;
    hide Rebuild;
    hide LocatedBefore;
    var txs, locs := Txs(blocks[j].transactions), LocateChain(blocks);
    RebuildLists(blocks);
    LocatedPosition(blocks, j, k, o);
    var before := LocatedBefore(LocateChain(blocks[..j]), j, txs, k, o);
    assert before == locs[..|before|];
    SelectAt(locs, |before|);
    var a := txs[k].outputs[o].amount;
    assert KeyVector(Rebuild(blocks).tables, a) == Select(locs, a, false);
    assert MsigVector(Rebuild(blocks).tables, a) == Select(locs, a, true);
  }

  lemma {:induction false} AcceptedTransactions(env: Env, blocks: seq<BlockEntry>, e: BlockEntry)
    requires BlockAccepted(env, blocks, e)
    ensures e.transactions == EntryTxs(Rebuild(blocks), |blocks|, Txs(e.transactions))
  {
    hide Rebuild;
    hide TxsVerdict;
    hide RewardFor;
    AcceptedEntry(env, blocks, e);
  }

  // ---- Readers of the vectors ----

  ghost predicate OrderedByBlock(outs: seq<OutputRef>) {
    forall i, j :: 0 <= i < j < |outs| ==> outs[i].txIndex.block <= outs[j].txIndex.block
  }

  /** The vectors that the readers below receive are ordered by block. */
  lemma {:induction false} KeyVectorOrdered(blocks: seq<BlockEntry>, a: uint64)
    ensures OrderedByBlock(KeyVector(Rebuild(blocks).tables, a))
  {
    RebuildLists(blocks);
    var v := KeyVector(Rebuild(blocks).tables, a);
    assert v == Select(LocateChain(blocks), a, false);
    forall i, j | 0 <= i < j < |v| ensures v[i].txIndex.block <= v[j].txIndex.block {
      VectorsPointBack(blocks, a, false, i, j);
    }
  }

  /** `find_end_of_allowed_index`: exactly the outputs old enough for the unlock window lie below the result. */
  method FindEndOfAllowedIndex(outs: seq<OutputRef>, window: nat, height: nat) returns (r: nat)
    ensures r <= |outs| && (r > 0 ==> outs[r - 1].txIndex.block + window <= height)
    ensures forall i :: r <= i < |outs| ==> outs[i].txIndex.block + window > height
    ensures OrderedByBlock(outs) ==>
              forall i :: 0 <= i < |outs| ==> (i < r <==> outs[i].txIndex.block + window <= height)
  {
    if outs == [] {
      return 0;
    }
    var i := |outs|;
    while i != 0
      invariant 0 <= i <= |outs|
      invariant forall k :: i <= k < |outs| ==> outs[k].txIndex.block + window > height
    {
      i := i - 1;
      if outs[i].txIndex.block + window <= height {
        return i + 1;
      }
    }
    return 0;
  }

  /** `relative_output_offsets_to_absolute` on 32-bit values, updating the vector in place from the front. */
  method RelativeToAbsolute(off: seq<nat>) returns (res: seq<nat>)
    ensures |res| == |off|
    ensures forall i :: 0 <= i < |off| ==> res[i] == AbsoluteAt(off, i)
  {
    res := off;
    var i := 1;
    while i < |res|
      invariant |res| == |off| && 1 <= i && (i <= |off| || off == [])
      invariant forall k :: i <= k < |off| ==> res[k] == off[k]
      invariant forall k :: 0 <= k < i && k < |off| ==>
                  res[k] == AbsoluteAt(off, k)
    {
      assert off[..i + 1][..i] == off[..i];
      if i == 1 {
        assert off[..1][..0] == [];
        assert Total(off[..1]) == off[0];
      }
      assert Total(off[..i + 1]) == Total(off[..i]) + off[i];
      ModAdd(Total(off[..i]), off[i]);
      res := res[i := (res[i] + res[i - 1]) % TWO32];
      i := i + 1;
    }
  }

  lemma {:induction false} ModAdd(x: nat, y: nat)
    ensures (y + x % TWO32) % TWO32 == (x + y) % TWO32
  {
    var q := x / TWO32;
    assert x + y == q * TWO32 + (y + x % TWO32);
  }

  lemma {:induction false} TotalMonotone(off: seq<nat>, i: nat)
    requires i <= |off|
    ensures Total(off[..i]) <= Total(off)
  {
    if i < |off| {
      TotalMonotone(off[..|off| - 1], i);
      assert off[..|off| - 1][..i] == off[..i];
    } else {
      assert off[..i] == off;
    }
  }

  /** The absolute offset of ring member `i`. */
  function AbsoluteAt(off: seq<nat>, i: nat): nat
    requires i < |off|
  {
    if i == 0 then off[0] else Total(off[..i + 1]) % TWO32
  }

  lemma {:induction false} AbsoluteExact(off: seq<nat>, i: nat)
    requires i < |off| && Total(off) < TWO32
    ensures AbsoluteAt(off, i) == Total(off[..i + 1])
  {
    TotalMonotone(off, i + 1);
    if i == 0 {
      assert off[..1][..0] == [];
    }
  }

  /** Without 32-bit wrap-around absolute offsets never decrease. */
  lemma {:induction false} AbsoluteAscending(off: seq<nat>, i: nat, j: nat)
    requires i <= j < |off| && Total(off) < TWO32
    ensures AbsoluteAt(off, i) <= AbsoluteAt(off, j)
  {
    AbsoluteExact(off, i);
    AbsoluteExact(off, j);
    TotalMonotone(off[..j + 1], i + 1);
    assert off[..j + 1][..i + 1] == off[..i + 1];
  }

  ghost predicate AscendingOffsets(off: seq<nat>) {
    forall i, j :: 0 <= i <= j < |off| ==> AbsoluteAt(off, i) <= AbsoluteAt(off, j)
  }

  /** The offsets at which a 32-bit sum first wraps. */
  lemma {:induction false} FirstWrap(off: seq<nat>) returns (i: nat)
    requires forall k :: 0 <= k < |off| ==> off[k] < TWO32
    requires Total(off) >= TWO32
    ensures 0 < i < |off| && AbsoluteAt(off, i) < AbsoluteAt(off, i - 1)
  {
    var n := |off| - 1;
    if Total(off[..n]) >= TWO32 {
      i := FirstWrap(off[..n]);
      assert off[..n][..i + 1] == off[..i + 1] && off[..n][..i] == off[..i];
    } else {
      i := n;
      assert n > 0;
      assert off[..n + 1] == off;
      AbsoluteExact(off[..n], n - 1);
      assert off[..n][..n] == off[..n];
      assert off[..n][..1] == off[..1];
    }
  }

  /** Ring offsets are in ascending order exactly when their 32-bit running sum never wraps. */
  lemma {:induction false} AscendingIffNoWrap(off: seq<nat>)
    requires forall k :: 0 <= k < |off| ==> off[k] < TWO32
    ensures AscendingOffsets(off) <==> Total(off) < TWO32
  {
    if Total(off) < TWO32 {
      forall i, j | 0 <= i <= j < |off| ensures AbsoluteAt(off, i) <= AbsoluteAt(off, j) {
        AbsoluteAscending(off, i, j);
      }
    } else {
      var i := FirstWrap(off);
    }
  }

  /** The second offset wraps: the absolute offsets are 5 and 3. */
  lemma {:induction false} WrapExample()
    ensures var off := [5, TWO32 - 2];
            && Total(off) >= TWO32 && !AscendingOffsets(off)
            && AbsoluteAt(off, 0) == 5 && AbsoluteAt(off, 1) == 3
  {
    var off: seq<nat> := [5, TWO32 - 2];
    assert off[..2] == off && off[..1] == [5] && [5][..0] == [];
    assert Total(off) == TWO32 + 3;
    assert !(AbsoluteAt(off, 0) <= AbsoluteAt(off, 1));
  }

  ghost predicate Sorted(s: seq<nat>) {
    forall i, j :: 0 <= i <= j < |s| ==> s[i] <= s[j]
  }

  ghost predicate Differences(r: seq<nat>, s: seq<nat>) {
    |r| == |s| && forall i :: 0 <= i < |s| ==> r[i] + (if i == 0 then 0 else s[i - 1]) == s[i]
  }

  function Inserted(x: nat, s: seq<nat>): (r: seq<nat>) {
    if s == [] || x <= s[0] then [x] + s else [s[0]] + Inserted(x, s[1..])
  }

  /** What `std::sort` makes of a vector. */
  function SortedOf(s: seq<nat>): (r: seq<nat>) {
    if s == [] then [] else Inserted(s[0], SortedOf(s[1..]))
  }

  ghost predicate AtLeast(s: seq<nat>, lo: nat) {
    forall k :: 0 <= k < |s| ==> lo <= s[k]
  }

  lemma {:induction false} InsertedAtLeast(x: nat, s: seq<nat>, lo: nat)
    requires lo <= x && AtLeast(s, lo)
    ensures AtLeast(Inserted(x, s), lo)
  {
    if s != [] && x > s[0] {
      InsertedAtLeast(x, s[1..], lo);
    }
  }

  lemma {:induction false} InsertedHolds(x: nat, s: seq<nat>)
    ensures multiset(Inserted(x, s)) == multiset{x} + multiset(s)
  {
    if s == [] || x <= s[0] {
      assert multiset([x] + s) == multiset{x} + multiset(s);
    } else {
      InsertedHolds(x, s[1..]);
      assert multiset([s[0]] + Inserted(x, s[1..])) == multiset{s[0]} + multiset(Inserted(x, s[1..]));
      assert s == [s[0]] + s[1..];
    }
  }

  lemma {:induction false} InsertedSorts(x: nat, s: seq<nat>)
    requires Sorted(s)
    ensures Sorted(Inserted(x, s))
  {
    if s != [] && x > s[0] {
      InsertedSorts(x, s[1..]);
      InsertedAtLeast(x, s[1..], s[0]);
    }
  }

  /** The sorted vector is in order and holds the same offsets. */
  lemma {:induction false} SortedOfSorts(s: seq<nat>)
    ensures Sorted(SortedOf(s)) && multiset(SortedOf(s)) == multiset(s)
  {
    if s != [] {
      SortedOfSorts(s[1..]);
      InsertedSorts(s[0], SortedOf(s[1..]));
      InsertedHolds(s[0], SortedOf(s[1..]));
      assert s == [s[0]] + s[1..];
    }
  }

  /** `absolute_output_offsets_to_relative`: sorts, then takes differences in place from the back. */
  method AbsoluteToRelative(off: seq<nat>) returns (res: seq<nat>)
    ensures Sorted(SortedOf(off)) && multiset(SortedOf(off)) == multiset(off)
    ensures Differences(res, SortedOf(off))
  {
    SortedOfSorts(off);
    var sorted := SortedOf(off);
    hide SortedOf;
    res := sorted;
    if |res| == 0 {
      return;
    }
    var i := |res| - 1;
    while i != 0
      invariant 0 <= i < |sorted| == |res|
      invariant forall k :: 0 <= k <= i ==> res[k] == sorted[k]
      invariant forall k :: i < k < |sorted| ==> res[k] == sorted[k] - sorted[k - 1]
      decreases i
    {
      res := res[i := res[i] - res[i - 1]];
      i := i - 1;
    }
  }

  /** Relative offsets of 32-bit indexes in order lead back to exactly those indexes. */
  lemma {:induction false} OffsetsRoundTrip(sorted: seq<nat>, off: seq<nat>, n: nat)
    requires Sorted(sorted) && Differences(off, sorted) && n < |sorted|
    requires forall i :: 0 <= i < |sorted| ==> sorted[i] < TWO32
    ensures AbsoluteAt(off, n) == sorted[n] && Total(off[..n + 1]) == sorted[n]
  {
    assert off[..n + 1][..n] == off[..n];
    assert off[n] + (if n == 0 then 0 else sorted[n - 1]) == sorted[n];
    if n > 0 {
      OffsetsRoundTrip(sorted, off, n - 1);
      assert Total(off[..n]) == sorted[n - 1];
    } else {
      assert Total(off[..n]) == 0;
    }
    assert Total(off[..n + 1]) == Total(off[..n]) + off[n] == sorted[n];
    assert sorted[n] % TWO32 == sorted[n];
  }

  /** A vector entry that names a stored key output of amount `a`. */
  predicate NamesKeyOutput(blocks: seq<BlockEntry>, ref: OutputRef, a: uint64) {
    && ref.txIndex.block < |blocks|
    && ref.txIndex.transaction < |blocks[ref.txIndex.block].transactions|
    && ref.output < |blocks[ref.txIndex.block].transactions[ref.txIndex.transaction].tx.outputs|
    && Kind(blocks[ref.txIndex.block].transactions[ref.txIndex.transaction].tx.outputs[ref.output], a, false)
  }

  function SourceOf(blocks: seq<BlockEntry>, ref: OutputRef, a: uint64): Transaction
    requires NamesKeyOutput(blocks, ref, a)
  {
    blocks[ref.txIndex.block].transactions[ref.txIndex.transaction].tx
  }

  ghost predicate AllNamed(blocks: seq<BlockEntry>, v: seq<OutputRef>, a: uint64) {
    forall i :: 0 <= i < |v| ==> NamesKeyOutput(blocks, v[i], a)
  }

  lemma {:induction false} KeyVectorStored(blocks: seq<BlockEntry>, a: uint64)
    ensures AllNamed(blocks, KeyVector(Rebuild(blocks).tables, a), a)
  {
    RebuildLists(blocks);
    var v := KeyVector(Rebuild(blocks).tables, a);
    assert v == Select(LocateChain(blocks), a, false);
    forall i | 0 <= i < |v| ensures NamesKeyOutput(blocks, v[i], a) {
      VectorsPointBack(blocks, a, false, i, i);
    }
  }

  /**
   `scanOutputKeysForIndexes` with the output visitor of `check_tx_input`, on the tables of a stored chain.
   It fails exactly for an unknown amount, an empty ring, an offset past the vector or a locked source; it
   reports as `highest` the block of the last ring member only.
   */
  method ScanOutputKeys(blocks: seq<BlockEntry>, amount: uint64, offsets: seq<nat>, unlocked: Transaction -> bool,
                        related: nat) returns (ok: bool, found: seq<OutputRef>, highest: nat)
    ensures ok <==> && offsets != [] && KeyVector(Rebuild(blocks).tables, amount) != []
                    && forall i :: 0 <= i < |offsets| ==> RingMemberOk(blocks, amount, offsets, unlocked, i)
    ensures ok ==> Collects(KeyVector(Rebuild(blocks).tables, amount), offsets, found) && |found| == |offsets|
    ensures ok ==> highest == Max(related, found[|offsets| - 1].txIndex.block)
    ensures ok && Total(offsets) < TWO32 ==> forall i :: 0 <= i < |offsets| ==> found[i].txIndex.block <= highest
  {
    hide Rebuild, KeyVector, Total, AbsoluteAt;
    found, highest := [], related;
    var v := KeyVector(Rebuild(blocks).tables, amount);
    KeyVectorStored(blocks, amount);
    if v == [] || offsets == [] {
      return false, found, highest;
    }
    var absolute := RelativeToAbsolute(offsets);
    var count := 0;
    while count < |absolute|
      invariant 0 <= count <= |absolute| && |found| == count
      invariant forall i :: 0 <= i < count ==> RingMemberOk(blocks, amount, offsets, unlocked, i)
      invariant Collects(v, offsets, found)
      invariant highest == (if count == |absolute| then Max(related, found[count - 1].txIndex.block) else related)
    {
      var i := absolute[count];
      assert i == AbsoluteAt(offsets, count);
      if i >= |v| {
        assert !RingMemberOk(blocks, amount, offsets, unlocked, count);
        return false, found, highest;
      }
      var ref := v[i];
      assert NamesKeyOutput(blocks, ref, amount);
      var source := blocks[ref.txIndex.block].transactions[ref.txIndex.transaction].tx;
      if !unlocked(source) {
        assert !RingMemberOk(blocks, amount, offsets, unlocked, count);
        return false, found, highest;
      }
      found := found + [ref];
      if count == |absolute| - 1 && highest < ref.txIndex.block {
        highest := ref.txIndex.block;
      }
      count := count + 1;
    }
    ok := true;
    if Total(offsets) < TWO32 {
      KeyVectorOrdered(blocks, amount);
      forall i | 0 <= i < |offsets| ensures found[i].txIndex.block <= highest {
        AbsoluteAscending(offsets, i, |offsets| - 1);
      }
    }
  }

  /** `found` are the vector entries at the first ring offsets. */
  ghost predicate Collects(v: seq<OutputRef>, offsets: seq<nat>, found: seq<OutputRef>) {
    |found| <= |offsets|
    && forall i :: 0 <= i < |found| ==> AbsoluteAt(offsets, i) < |v| && found[i] == v[AbsoluteAt(offsets, i)]
  }

  function Max(x: nat, y: nat): nat {
    if x < y then y else x
  }

  predicate RingMemberOk(blocks: seq<BlockEntry>, amount: uint64, offsets: seq<nat>, unlocked: Transaction -> bool,
                         i: nat)
    requires i < |offsets|
  {
    var v := KeyVector(Rebuild(blocks).tables, amount);
    var k := AbsoluteAt(offsets, i);
    k < |v| && NamesKeyOutput(blocks, v[k], amount) && unlocked(SourceOf(blocks, v[k], amount))
  }
}
