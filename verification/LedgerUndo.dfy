/** What undoing a list of pushed transactions does in general, whatever their multisignature inputs consumed before. */
module LedgerUndo {
  import opened LedgerTypes
  import opened LedgerCache
  import opened LedgerInputs

  function ClearedTables(t: OutputTables, refs: set<(uint64, nat)>): OutputTables {
    t.(msigs := WithFlags(t.msigs, refs, false))
  }

  /** The indexes with the usage flags of the referenced outputs cleared. */
  function Cleared(c: Cache, refs: set<(uint64, nat)>): Cache {
    c.(tables := ClearedTables(c.tables, refs))
  }

  /** Outputs start unused, so it does not matter whether flags are cleared before or after adding them. */
  lemma {:induction false} ClearingCommutes(t: OutputTables, idx: TransactionIndex, outs: seq<Output>,
                                            refs: set<(uint64, nat)>)
    ensures AddOutputs(ClearedTables(t, refs), idx, outs) == ClearedTables(AddOutputs(t, idx, outs), refs)
  {
    if outs != [] {
      var n := |outs| - 1;
      ClearingCommutes(t, idx, outs[..n], refs);
      var before := AddOutputs(t, idx, outs[..n]);
      if outs[n].target.MultisignatureOutput? {
        AppendCleared(before.msigs, outs[n].amount, MsigUsage(idx, n, false), refs);
      }
    }
  }

  lemma {:induction false} AppendCleared(m: MsigMap, a: uint64, u: MsigUsage, refs: set<(uint64, nat)>)
    requires !u.isUsed
    ensures Append(WithFlags(m, refs, false), a, u) == WithFlags(Append(m, a, u), refs, false)
  {
    var x: MsigMap, y: MsigMap := Append(WithFlags(m, refs, false), a, u), WithFlags(Append(m, a, u), refs, false);
    forall b: uint64 | b in x ensures x[b] == y[b] {
    }
  }

  lemma {:induction false} FlagsThrice(m: MsigMap, refs: set<(uint64, nat)>, gone: set<(uint64, nat)>)
    requires InRange(m, refs)
    ensures var x := WithFlags(WithFlags(m, refs, true), gone, false);
            && InRange(x, refs) && (AllFlags(x, refs, true) <==> refs !! gone)
            && WithFlags(x, refs, false) == WithFlags(m, gone + refs, false)
  {
    var x: MsigMap := WithFlags(WithFlags(m, refs, true), gone, false);
    var y: MsigMap, z: MsigMap := WithFlags(x, refs, false), WithFlags(m, gone + refs, false);
    forall a: uint64 | a in m ensures y[a] == z[a] {
    }
    forall r | r in refs ensures x[r.0][r.1].isUsed <==> r !in gone {
      assert (r.0, r.1) == r;
    }
  }

  lemma {:induction false} RemovesAdded(m: map<Hash, TransactionIndex>, h: Hash, idx: TransactionIndex)
    requires h !in m
    ensures m[h := idx] - {h} == m
  {
  }

  /** Popping one transaction after some flags were cleared by later pops. */
  lemma {:induction false} PopClears(c: Cache, idx: TransactionIndex, tx: Transaction, gone: set<(uint64, nat)>)
    requires Pushable(c, tx) && NoEmptyTables(c.tables)
    ensures var d := Cleared(AddTx(c, idx, tx), gone);
            && PopDefined(d, tx)
            && PopTx(d, tx) == (Cleared(c, gone + MsigRefs(tx.inputs)), MsigRefs(tx.inputs) !! gone)
  {
    var refs := MsigRefs(tx.inputs);
    var d, t := Cleared(AddTx(c, idx, tx), gone), ClearedTables(Marked(c.tables, tx.inputs), gone);
    ClearingCommutes(Marked(c.tables, tx.inputs), idx, tx.outputs, gone);
    assert d.tables == AddOutputs(t, idx, tx.outputs);
    PopOutputsUndoesAdd(t, idx, tx.outputs);
    FlagsThrice(c.tables.msigs, refs, gone);
    hide AddOutputs, PopOutputs, WithFlags, InRange, AllFlags, NoEmptyTables, MsigRefs, KeyImages;
    RemovesAdded(c.txMap, TxHash(tx), idx);
    assert d.spent - KeyImages(tx.inputs) == c.spent;
  }

  /** Popping pushed transactions clears what they consumed, and is clean exactly if nothing was consumed twice. */
  lemma {:induction false} PopTxsClears(c: Cache, height: nat, txs: seq<Transaction>, gone: set<(uint64, nat)>)
    requires NoEmptyTables(c.tables) && AllPushable(c, height, txs)
    ensures var d, refs := Cleared(AddTxs(c, height, txs), gone), MsigRefs(TxsInputs(txs));
            && PopTxsDefined(d, txs)
            && PopTxs(d, txs) == (Cleared(c, gone + refs), DistinctMsigs(TxsInputs(txs)) && refs !! gone)
  {
    hide AddTx, PopTx, PopDefined, Cleared, DistinctMsigs, NoEmptyTables, Pushable;
    if txs == [] {
      NoConsumption([]);
      assert gone + MsigRefs([]) == gone;
    } else {
      var n := |txs| - 1;
      var before, refs, done := AddTxs(c, height, txs[..n]), MsigRefs(txs[n].inputs), MsigRefs(TxsInputs(txs[..n]));
      AddTxsKeepsNoEmpty(c, height, txs[..n]);
      assert PushableAt(c, height, txs, n);
      PopClears(before, TransactionIndex(height, n), txs[n], gone);
      AllPushablePrefix(c, height, txs, n);
      PopTxsClears(c, height, txs[..n], gone + refs);
      PushableDistinct(before, txs[n]);
      MsigsConcat(TxsInputs(txs[..n]), txs[n].inputs);
      ConcatConsumes(TxsInputs(txs[..n]), txs[n].inputs);
      assert gone + refs + done == gone + (done + refs);
    }
  }

  lemma {:induction false} PushableDistinct(c: Cache, tx: Transaction)
    requires Pushable(c, tx)
    ensures DistinctMsigs(tx.inputs)
  {
  }

  /** None of the referenced outputs that `c` stores is used. */
  ghost predicate UnusedIn(c: Cache, refs: set<(uint64, nat)>) {
    forall r :: r in refs && r.0 in c.tables.msigs && r.1 < |c.tables.msigs[r.0]| ==> !c.tables.msigs[r.0][r.1].isUsed
  }

  lemma {:induction false} ClearedIsSame(c: Cache, refs: set<(uint64, nat)>)
    ensures Cleared(c, refs) == c <==> UnusedIn(c, refs)
    ensures Cleared(c, {}) == c
  {
    var m: MsigMap, x: MsigMap := c.tables.msigs, WithFlags(c.tables.msigs, refs, false);
    var same: MsigMap := WithFlags(m, {}, false);
    forall a: uint64 | a in m ensures same[a] == m[a] {
      assert forall k :: 0 <= k < |m[a]| ==> same[a][k] == m[a][k];
    }
    assert same == m;
    if UnusedIn(c, refs) {
      forall a: uint64 | a in m ensures x[a] == m[a] {
        forall k | 0 <= k < |m[a]| ensures x[a][k] == m[a][k] {
          if (a, k) in refs {
            assert !m[(a, k).0][(a, k).1].isUsed;
          }
        }
      }
      assert x == m;
    } else {
      var r :| r in refs && r.0 in m && r.1 < |m[r.0]| && m[r.0][r.1].isUsed;
      assert (r.0, r.1) == r;
      assert !x[r.0][r.1].isUsed;
    }
  }

  /**
   The exact conditions for undoing a list of transactions, in the checkpoint zone or not. What they consumed is
   unused afterwards, so the indexes come back if and only if none of it was used before. No "consistency broken"
   branch is taken if and only if no two transactions consumed the same output.
   */
  lemma {:induction false} PopTxsExactly(c: Cache, height: nat, txs: seq<Transaction>)
    requires NoEmptyTables(c.tables) && AllPushable(c, height, txs)
    ensures PopTxsDefined(AddTxs(c, height, txs), txs)
    ensures var refs := MsigRefs(TxsInputs(txs));
            && PopTxs(AddTxs(c, height, txs), txs) == (Cleared(c, refs), DistinctMsigs(TxsInputs(txs)))
            && (Cleared(c, refs) == c <==> UnusedIn(c, refs))
  {
    hide PopTxs, PopTxsDefined, AddTxs, Cleared, DistinctMsigs, UnusedIn;
    PopTxsClears(c, height, txs, {});
    ClearedIsSame(AddTxs(c, height, txs), {});
    ClearedIsSame(c, MsigRefs(TxsInputs(txs)));
    assert {} + MsigRefs(TxsInputs(txs)) == MsigRefs(TxsInputs(txs));
  }

  /** Against exact flags, clearing changes nothing if and only if nothing consumed is cleared. */
  lemma {:induction false} ClearsNothing(c: Cache, ins: seq<Input>, refs: set<(uint64, nat)>)
    requires FlagsRecord(c, ins)
    ensures Cleared(c, refs) == c <==> MsigRefs(ins) !! refs
  {
    ClearedIsSame(c, refs);
    if UnusedIn(c, refs) {
      forall r | r in MsigRefs(ins) ensures r !in refs {
        assert c.tables.msigs[r.0][r.1].isUsed by { assert (r.0, r.1) == r; }
      }
    } else {
      var r :| r in refs && r.0 in c.tables.msigs && r.1 < |c.tables.msigs[r.0]| && c.tables.msigs[r.0][r.1].isUsed;
      assert (r.0, r.1) in MsigRefs(ins);
    }
  }

  lemma {:induction false} PopTxsKeepsIds(c: Cache, txs: seq<Transaction>)
    requires PopTxsDefined(c, txs)
    ensures PopTxs(c, txs).0.blockIds == c.blockIds
    decreases |txs|
  {
    hide PopDefined;
    if txs != [] {
      var n := |txs| - 1;
      PopTxsKeepsIds(PopTx(c, txs[n]).0, txs[..n]);
    }
  }
}
