/** What enters a node only through the semantic check: every transaction that is ever pooled or confirmed passed it. */
module LedgerAdmission {
  import opened LedgerTypes
  import opened LedgerCache
  import opened LedgerChain
  import opened LedgerSteps
  import opened LedgerReorg
  import opened LedgerRun
  import opened LedgerBranches
  import FormatUtils
  import LedgerSafety

  ghost predicate Admitted(env: Env, held: set<Hash>) {
    forall h :: h in held ==> h.TxHash? && FormatUtils.Admissible(h.tx, env.shapeOk, env.inDomain)
  }

  /** The transactions in the pool and those that the blocks list. */
  ghost function Held(s: Ledger): set<Hash> {
    s.pool + TxSet(Bls(s.blocks))
  }

  // ---- Where transactions come from ----

  lemma {:induction false} PrefixHeld(blocks: seq<BlockEntry>, n: nat)
    requires n <= |blocks|
    ensures TxSet(Bls(blocks)) == TxSet(Bls(blocks[..n])) + TxSet(Bls(blocks[n..]))
  {
    hide TxSet;
    assert Bls(blocks) == Bls(blocks[..n]) + Bls(blocks[n..]);
    TxSetConcat(Bls(blocks[..n]), Bls(blocks[n..]));
  }

  lemma {:induction false} ExtendedHeld(env: Env, s: Ledger, b: Block)
    ensures Held(Extended(env, s, b)) <= Held(s)
  {
    hide TxSet, VerdictOf, HashSet, Distinct, NamesTxs;
    if Taken(env, s.blocks, s.pool, b) {
      TakenBlock(env, s.blocks, s.pool, b);
      var e := VerdictOf(env, s.blocks, b).entry;
      ConnectOne(s.blocks, 0, e);
      assert s.blocks[0..] == s.blocks && (s.blocks + [e])[0..] == s.blocks + [e];
    }
  }

  lemma {:induction false} MovedHeld(env: Env, s: Ledger, altChain: seq<AltEntry>)
    ensures Held(Moved(env, s, altChain)) <= Held(s)
  {
    hide TxSet, Connect;
    if MaySwitch(env, s.blocks, altChain) && Reconnected(env, s.blocks, s.pool, altChain).count == |altChain| {
      var split, branch := altChain[0].height, Branch(altChain);
      var below, free := s.blocks[..split], FreeAt(s.blocks, s.pool, split);
      ConnectTakes(env, below, free, branch);
      ConnectedBlocks(env, below, free, branch);
      assert branch[..|branch|] == branch;
      TxSetConcat(Bls(below), branch);
      PrefixHeld(s.blocks, split);
    }
  }

  /** Only `AddTx` brings a transaction that the node did not hold. */
  lemma {:induction false} ExecHeld(env: Env, s: Ledger, cmd: Command)
    requires AltsOk(s.alts)
    ensures !cmd.AddTx? ==> Held(Exec(env, s, cmd)) <= Held(s)
    ensures cmd.AddTx? && Held(Exec(env, s, cmd)) != Held(s) ==>
              && FormatUtils.Admissible(cmd.tx, env.shapeOk, env.inDomain)
              && Held(Exec(env, s, cmd)) == Held(s) + {TxHash(cmd.tx)}
  {
    hide TxSet, Moved, Candidate, Preferred, Extended, Rebuild, AltsOk, FormatUtils.Admissible, HashSet;
    match cmd
    case AddBlock(b) =>
      ExtendedHeld(env, s, b);
      var candidate := Candidate(env, s.blocks, s.pool, s.alts, b);
      if candidate.Some? {
        CandidateShape(env, s.blocks, s.pool, s.alts, b);
        MovedHeld(env, Registered(s, b, candidate.value), candidate.value);
      }
    case AddTx(tx) =>
    case PopBlock =>
      if s.blocks != [] {
        var n := |s.blocks| - 1;
        PrefixHeld(s.blocks, n);
        assert Bls(s.blocks[n..]) == [s.blocks[n].bl];
        TxSetOne(s.blocks[n].bl);
      }
    case RollbackTo(height) =>
      if height + 1 < |s.blocks| {
        PrefixHeld(s.blocks, height + 1);
      }
  }

  /** In every state that any commands reach, every pooled and every confirmed transaction passed the semantic check. */
  lemma {:induction false} RunAdmits(env: Env, s: Ledger, cmds: seq<Command>)
    requires AltsOk(s.alts) && Admitted(env, Held(s))
    ensures Admitted(env, Held(ExecAll(env, s, cmds)))
    decreases |cmds|
  {
    hide AltsOk, Held, Exec, FormatUtils.Admissible;
    if cmds != [] {
      ExecAlts(env, s, cmds[0]);
      ExecHeld(env, s, cmds[0]);
      RunAdmits(env, Exec(env, s, cmds[0]), cmds[1..]);
    }
  }

  // ---- No transaction creates money ----

  /** What the coinbases of a chain pay out. */
  function CoinbaseTotal(blocks: seq<BlockEntry>): nat {
    if blocks == [] then 0
    else CoinbaseTotal(blocks[..|blocks| - 1]) + SumOutputs(blocks[|blocks| - 1].bl.base.outputs)
  }

  lemma {:induction false} SpendsWithin(env: Env, txs: seq<Transaction>)
    requires txs != []
    requires forall i :: 0 < i < |txs| ==> FormatUtils.Admissible(txs[i], env.shapeOk, env.inDomain)
    ensures LedgerSafety.TxsSupply(txs) <= SumOutputs(txs[0].outputs)
  {
    var n := |txs| - 1;
    if n == 0 {
      assert txs[..0] == [];
    } else {
      SpendsWithin(env, txs[..n]);
    }
  }

  lemma {:induction false} SupplyWithin(env: Env, blocks: seq<BlockEntry>)
    requires ChainOk(env, blocks) && Admitted(env, TxSet(Bls(blocks)))
    ensures LedgerSafety.ChainSupply(blocks) <= CoinbaseTotal(blocks)
  {
    hide *;
    if blocks != [] {
      var n := |blocks| - 1;
      AdmittedParts(env, blocks);
      ChainPrefix(env, blocks, n);
      SupplyWithin(env, blocks[..n]);
      ListedAdmitted(env, blocks);
      SpendsWithin(env, Txs(LastOf(blocks).transactions));
    }
    SupplySteps(blocks);
  }

  lemma {:induction false} SupplySteps(blocks: seq<BlockEntry>)
    ensures blocks == [] ==> LedgerSafety.ChainSupply(blocks) == CoinbaseTotal(blocks) == 0
    ensures blocks != [] ==>
              var below, last := blocks[..|blocks| - 1], LastOf(blocks);
              && LedgerSafety.ChainSupply(blocks)
                 == LedgerSafety.ChainSupply(below) + LedgerSafety.TxsSupply(Txs(last.transactions))
              && CoinbaseTotal(blocks) == CoinbaseTotal(below) + SumOutputs(last.bl.base.outputs)
  {
  }

  lemma {:induction false} AdmittedParts(env: Env, blocks: seq<BlockEntry>)
    requires blocks != [] && Admitted(env, TxSet(Bls(blocks)))
    ensures Admitted(env, TxSet(Bls(blocks[..|blocks| - 1]))) && Admitted(env, HashSet(LastOf(blocks).bl.txHashes))
  {
    hide TxSet, HashSet, FormatUtils.Admissible;
    var n := |blocks| - 1;
    PrefixHeld(blocks, n);
    assert Bls(blocks[n..]) == [blocks[n].bl];
    TxSetOne(blocks[n].bl);
  }

  lemma {:induction false} ListedAdmitted(env: Env, blocks: seq<BlockEntry>)
    requires ChainOk(env, blocks) && blocks != [] && Admitted(env, HashSet(LastOf(blocks).bl.txHashes))
    ensures var txs := Txs(LastOf(blocks).transactions);
            && txs != [] && txs[0] == LastOf(blocks).bl.base
            && forall i :: 0 < i < |txs| ==> FormatUtils.Admissible(txs[i], env.shapeOk, env.inDomain)
  {
    hide FormatUtils.Admissible;
    var n := |blocks| - 1;
    var b := blocks[n].bl;
    OkAt(env, blocks, n);
    hide ChainOk, BlockOk;
    AcceptedEntry(env, blocks[..n], blocks[n]);
    var txs := BlockTxs(b);
    forall i | 0 < i < |txs| ensures FormatUtils.Admissible(txs[i], env.shapeOk, env.inDomain) {
      assert b.txHashes[i - 1] in HashSet(b.txHashes);
    }
  }

  /**
   In every state that clean commands reach from the empty ledger, the coins in existence are at most what the coinbases
   paid out: no other transaction creates money.
   */
  lemma {:induction false} OnlyCoinbasesCreate(env: Env, cmds: seq<Command>)
    requires CleanAll(env, START, cmds)
    ensures var blocks := ExecAll(env, START, cmds).blocks;
            LedgerSafety.ChainSupply(blocks) <= CoinbaseTotal(blocks)
  {
    StartOk(env);
    NoTxs();
    var s := ExecAll(env, START, cmds);
    RunKeeps(env, START, cmds);
    RunAdmits(env, START, cmds);
    SoundChain(env, s);
    hide ChainOk, LedgerOk, ExecAll, FormatUtils.Admissible, TxSet;
    assert Admitted(env, TxSet(Bls(s.blocks)));
    SupplyWithin(env, s.blocks);
  }
}
