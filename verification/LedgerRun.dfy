/** Runs of the node: what each command does to chain, pool and alternative blocks, and what every run guarantees. */
module LedgerRun {
  import opened LedgerTypes
  import opened LedgerCache
  import opened LedgerInputs
  import opened LedgerChain
  import opened LedgerSteps
  import opened LedgerReorg
  import FormatUtils
  import LedgerSafety

  /** The pool is represented by the hashes of its transactions. */
  datatype Ledger = Ledger(blocks: seq<BlockEntry>, pool: set<Hash>, alts: map<Hash, AltEntry>)

  datatype Command = AddBlock(block: Block) | AddTx(tx: Transaction) | PopBlock | RollbackTo(height: nat)

  const START: Ledger := Ledger([], {}, map[])

  ghost predicate FreeOk(free: set<Hash>) {
    forall h :: h in free ==> h.TxHash? && Semantic(h.tx)
  }

  /** Every stored block was accepted and is sound, and nothing in the pool is confirmed. */
  ghost predicate LedgerOk(env: Env, s: Ledger) {
    ChainOk(env, s.blocks) && AltsOk(s.alts) && FreeOk(s.pool) && s.pool !! TxSet(Bls(s.blocks))
  }

  ghost predicate Known(s: Ledger, b: Block) {
    BlockHash(b) in Ids(s.blocks) || BlockHash(b) in s.alts
  }

  /** A block on top of the tip. */
  ghost function Extended(env: Env, s: Ledger, b: Block): Ledger {
    if Taken(env, s.blocks, s.pool, b) then
      Ledger(s.blocks + [VerdictOf(env, s.blocks, b).entry], s.pool - HashSet(b.txHashes), s.alts)
    else s
  }

  /** The attempt to switch to a registered branch. */
  ghost function Moved(env: Env, s: Ledger, altChain: seq<AltEntry>): Ledger {
    if !MaySwitch(env, s.blocks, altChain) then s
    else
      var c := Reconnected(env, s.blocks, s.pool, altChain);
      if c.count == |altChain| then Ledger(c.blocks, c.free, s.alts - BranchIds(altChain))
      else s.(alts := s.alts - BranchIds(altChain[c.count..]))
  }

  ghost function Registered(s: Ledger, b: Block, altChain: seq<AltEntry>): Ledger
    requires altChain != []
  {
    s.(alts := s.alts[BlockHash(b) := altChain[|altChain| - 1]])
  }

  /** A block that does not extend the tip. */
  ghost function Branched(env: Env, s: Ledger, b: Block): Ledger
    requires AltsOk(s.alts)
  {
    var candidate := Candidate(env, s.blocks, s.pool, s.alts, b);
    if candidate.None? then s
    else
      CandidateShape(env, s.blocks, s.pool, s.alts, b);
      var t := Registered(s, b, candidate.value);
      if Preferred(env, s.blocks, candidate.value) then Moved(env, t, candidate.value) else t
  }

  /** What a command does. */
  ghost function Exec(env: Env, s: Ledger, cmd: Command): (r: Ledger)
    requires AltsOk(s.alts)
  {
    match cmd
    case AddBlock(b) =>
      if Known(s, b) then s
      else if b.previous == TailId(s.blocks) then Extended(env, s, b)
      else Branched(env, s, b)
    case AddTx(tx) =>
      if FormatUtils.Admissible(tx, env.shapeOk, env.inDomain) && TxHash(tx) !in Rebuild(s.blocks).txMap
      then s.(pool := s.pool + {TxHash(tx)})
      else s
    case PopBlock =>
      if s.blocks == [] then s
      else
        var n := |s.blocks| - 1;
        Ledger(s.blocks[..n], s.pool + HashSet(s.blocks[n].bl.txHashes), s.alts)
    case RollbackTo(height) =>
      if height + 1 < |s.blocks| then s.(blocks := s.blocks[..height + 1]) else s
  }

  /** If the block asks for a switch, the switch pushes only clean blocks. */
  ghost predicate BranchedClean(env: Env, s: Ledger, b: Block)
    requires AltsOk(s.alts)
  {
    var candidate := Candidate(env, s.blocks, s.pool, s.alts, b);
    candidate.Some? ==>
      (CandidateShape(env, s.blocks, s.pool, s.alts, b);
       Preferred(env, s.blocks, candidate.value) ==> SwitchClean(env, s.blocks, s.pool, candidate.value))
  }

  /** No block that the command pushes takes the size exit or throws, and what the command undoes can be undone. */
  ghost predicate Clean(env: Env, s: Ledger, cmd: Command)
    requires AltsOk(s.alts)
  {
    match cmd
    case AddBlock(b) =>
      !Known(s, b) ==>
        if b.previous == TailId(s.blocks) then Takes(s.pool, b) ==> CleanOn(env, s.blocks, b)
        else BranchedClean(env, s, b)
    case AddTx(_) => true
    case PopBlock => s.blocks != [] ==> NothingBack(s.blocks, |s.blocks| - 1)
    case RollbackTo(height) => height + 1 < |s.blocks| ==> NothingBack(s.blocks, height + 1)
  }

  // ---- One command ----

  lemma {:induction false} ErasedOk(alts: map<Hash, AltEntry>, gone: set<Hash>)
    requires AltsOk(alts)
    ensures AltsOk(alts - gone)
  {
  }

  lemma {:induction false} MovedAlts(env: Env, s: Ledger, altChain: seq<AltEntry>)
    requires AltsOk(s.alts)
    ensures AltsOk(Moved(env, s, altChain).alts)
  {
    hide AltsOk, Connect, TxSet, Bls;
    if MaySwitch(env, s.blocks, altChain) {
      ErasedOk(s.alts, BranchIds(altChain));
      ErasedOk(s.alts, BranchIds(altChain[Reconnected(env, s.blocks, s.pool, altChain).count..]));
    }
  }

  /** Commands keep the alternative store well formed, clean or not. */
  lemma {:induction false} ExecAlts(env: Env, s: Ledger, cmd: Command)
    requires AltsOk(s.alts)
    ensures AltsOk(Exec(env, s, cmd).alts)
  {
    hide AltsOk, Moved, Candidate, Preferred, VerdictOf, Rebuild, FormatUtils.Admissible;
    if cmd.AddBlock? {
      var candidate := Candidate(env, s.blocks, s.pool, s.alts, cmd.block);
      if candidate.Some? {
        CandidateShape(env, s.blocks, s.pool, s.alts, cmd.block);
        MovedAlts(env, Registered(s, cmd.block, candidate.value), candidate.value);
      }
    }
  }

  /** An accepted block whose transactions were free is a sound extension. */
  lemma {:induction false} TakenOk(env: Env, blocks: seq<BlockEntry>, free: set<Hash>, b: Block)
    requires ChainOk(env, blocks) && FreeOk(free) && free !! TxSet(Bls(blocks))
    requires Taken(env, blocks, free, b) && CleanOn(env, blocks, b)
    ensures var e := VerdictOf(env, blocks, b).entry;
            && e.bl == b && ChainOk(env, blocks + [e]) && Bls(blocks + [e]) == Bls(blocks) + [b]
            && TxSet(Bls(blocks + [e])) == TxSet(Bls(blocks)) + HashSet(b.txHashes)
            && FreeOk(free - HashSet(b.txHashes)) && free - HashSet(b.txHashes) !! TxSet(Bls(blocks + [e]))
  {
    hide VerdictOf, ZoneStored, ChainOk, ListsNew, Restores, TxSet, HashSet, FreeOk, Distinct;
    var e := VerdictOf(env, blocks, b).entry;
    AcceptedBlock(env, blocks, b);
    TakesSemantic(free, b);
    FreeListsNew(env, blocks, free, b);
    assert BlockOk(env, blocks, e);
    ChainExtend(env, blocks, e);
    assert Bls(blocks + [e]) == Bls(blocks) + [b];
    TxSetConcat(Bls(blocks), [b]);
    TxSetOne(b);
    LessFree(free, HashSet(b.txHashes));
  }

  lemma {:induction false} LessFree(free: set<Hash>, taken: set<Hash>)
    requires FreeOk(free)
    ensures FreeOk(free - taken)
  {
  }

  lemma {:induction false} TakesSemantic(free: set<Hash>, b: Block)
    requires FreeOk(free) && Takes(free, b)
    ensures SemanticBlock(b)
  {
    hide Semantic;
    forall i | 0 < i < |BlockTxs(b)| ensures Semantic(BlockTxs(b)[i]) {
      assert b.txHashes[i - 1] in HashSet(b.txHashes);
    }
  }

  /** Connecting a clean branch keeps the chain sound, block by block, and adds exactly the connected blocks. */
  lemma {:induction false} ConnectOk(env: Env, blocks: seq<BlockEntry>, free: set<Hash>, branch: seq<Block>)
    requires ChainOk(env, blocks) && FreeOk(free) && free !! TxSet(Bls(blocks))
    requires BranchClean(env, blocks, free, branch)
    ensures var r := Connect(env, blocks, free, branch);
            && ChainOk(env, r.blocks) && FreeOk(r.free) && r.free !! TxSet(Bls(r.blocks))
            && Bls(r.blocks) == Bls(blocks) + branch[..r.count]
    decreases |branch|
  {
    hide ChainOk, VerdictOf, TxSet, FreeOk, CleanOn, Distinct, HashSet, NamesTxs;
    var r := Connect(env, blocks, free, branch);
    if branch != [] && Taken(env, blocks, free, branch[0]) {
      var e := VerdictOf(env, blocks, branch[0]).entry;
      TakenOk(env, blocks, free, branch[0]);
      ConnectOk(env, blocks + [e], free - HashSet(branch[0].txHashes), branch[1..]);
      assert branch[..r.count] == [branch[0]] + branch[1..][..r.count - 1];
    } else {
      assert branch[..0] == [];
    }
  }

  /** What a suffix of the chain confirms is well formed and not confirmed below it. */
  lemma {:induction false} SuffixNew(env: Env, blocks: seq<BlockEntry>, s: nat)
    requires ChainOk(env, blocks) && s <= |blocks|
    ensures TxSet(Bls(blocks[s..])) !! TxSet(Bls(blocks[..s])) && FreeOk(TxSet(Bls(blocks[s..])))
    ensures TxSet(Bls(blocks)) == TxSet(Bls(blocks[..s])) + TxSet(Bls(blocks[s..]))
    decreases |blocks| - s
  {
    hide ChainOk, TxSet;
    assert Bls(blocks) == Bls(blocks[..s]) + Bls(blocks[s..]);
    TxSetConcat(Bls(blocks[..s]), Bls(blocks[s..]));
    if s == |blocks| {
      assert Bls(blocks[s..]) == [];
      NoTxs();
    } else {
      SuffixNew(env, blocks, s + 1);
      ConfirmedOnce(env, blocks, s);
      StoredSemantic(env, blocks, s);
      assert Bls(blocks[s..]) == [blocks[s].bl] + Bls(blocks[s + 1..]);
      TxSetConcat([blocks[s].bl], Bls(blocks[s + 1..]));
      TxSetOne(blocks[s].bl);
      assert Bls(blocks[..s + 1]) == Bls(blocks[..s]) + [blocks[s].bl];
      TxSetConcat(Bls(blocks[..s]), [blocks[s].bl]);
    }
  }

  lemma {:induction false} StoredSemantic(env: Env, blocks: seq<BlockEntry>, j: nat)
    requires ChainOk(env, blocks) && j < |blocks|
    ensures FreeOk(HashSet(blocks[j].bl.txHashes))
  {
    hide VerdictOf, ZoneStored, Semantic;
    OkAt(env, blocks, j);
    var b := blocks[j].bl;
    forall h | h in HashSet(b.txHashes) ensures h.TxHash? && Semantic(h.tx) {
      var i :| 0 <= i < |b.txHashes| && b.txHashes[i] == h;
      assert h == TxHash(BlockTxs(b)[i + 1]);
    }
  }

  lemma {:induction false} ExtendedKeeps(env: Env, s: Ledger, b: Block)
    requires LedgerOk(env, s) && (Takes(s.pool, b) ==> CleanOn(env, s.blocks, b))
    ensures LedgerOk(env, Extended(env, s, b))
    ensures TxSet(Bls(s.blocks)) <= TxSet(Bls(Extended(env, s, b).blocks))
  {
    hide VerdictOf, ChainOk, TxSet, CleanOn, AltsOk, Takes;
    if Taken(env, s.blocks, s.pool, b) {
      TakenOk(env, s.blocks, s.pool, b);
    }
  }

  lemma {:induction false} FreeUnion(x: set<Hash>, y: set<Hash>)
    requires FreeOk(x) && FreeOk(y)
    ensures FreeOk(x + y)
  {
  }

  lemma {:induction false} ReconnectedOk(env: Env, s: Ledger, altChain: seq<AltEntry>)
    requires LedgerOk(env, s) && SwitchClean(env, s.blocks, s.pool, altChain) && MaySwitch(env, s.blocks, altChain)
    ensures var c := Reconnected(env, s.blocks, s.pool, altChain);
            && c.count <= |altChain| && LedgerOk(env, Ledger(c.blocks, c.free, s.alts))
            && (c.count == |altChain| ==> TxSet(Bls(s.blocks)) <= TxSet(Bls(c.blocks)))
  {
    hide ChainOk, TxSet, BranchClean, AltsOk, Connect, Bls, Branch, FreeOk;
    var split, branch := altChain[0].height, Branch(altChain);
    var c, free := Reconnected(env, s.blocks, s.pool, altChain), FreeAt(s.blocks, s.pool, altChain[0].height);
    assert c == Connect(env, s.blocks[..split], free, branch) && BranchClean(env, s.blocks[..split], free, branch);
    hide Reconnected, SwitchClean;
    ChainPrefix(env, s.blocks, split);
    SuffixNew(env, s.blocks, split);
    FreeUnion(s.pool, TxSet(Bls(s.blocks[split..])));
    assert free !! TxSet(Bls(s.blocks[..split]));
    hide FreeAt;
    ConnectOk(env, s.blocks[..split], free, branch);
    if c.count == |branch| {
      assert branch[..c.count] == branch;
      KeepsConfirmed(s.blocks, split, branch, c.blocks);
    }
  }

  /** A switch is sound and loses no confirmed transaction, since the branch was compared before. */
  lemma {:induction false} MovedKeeps(env: Env, s: Ledger, altChain: seq<AltEntry>)
    requires LedgerOk(env, s) && SwitchClean(env, s.blocks, s.pool, altChain)
    ensures LedgerOk(env, Moved(env, s, altChain))
    ensures TxSet(Bls(s.blocks)) <= TxSet(Bls(Moved(env, s, altChain).blocks))
  {
    hide ChainOk, TxSet, AltsOk, Reconnected, BranchIds, SwitchClean, Bls, FreeOk;
    if MaySwitch(env, s.blocks, altChain) {
      ReconnectedOk(env, s, altChain);
      var c := Reconnected(env, s.blocks, s.pool, altChain);
      ErasedOk(s.alts, BranchIds(altChain));
      ErasedOk(s.alts, BranchIds(altChain[c.count..]));
    }
  }

  lemma {:induction false} BranchedKeeps(env: Env, s: Ledger, b: Block)
    requires LedgerOk(env, s) && BranchedClean(env, s, b)
    ensures LedgerOk(env, Branched(env, s, b))
    ensures TxSet(Bls(s.blocks)) <= TxSet(Bls(Branched(env, s, b).blocks))
  {
    hide ChainOk, TxSet, AltsOk, Candidate, SwitchClean, Preferred, Moved;
    var candidate := Candidate(env, s.blocks, s.pool, s.alts, b);
    if candidate.Some? {
      CandidateShape(env, s.blocks, s.pool, s.alts, b);
      var t := Registered(s, b, candidate.value);
      assert LedgerOk(env, t);
      if Preferred(env, s.blocks, candidate.value) {
        MovedKeeps(env, t, candidate.value);
      }
    }
  }

  lemma {:induction false} AddTxKeeps(env: Env, s: Ledger, tx: Transaction)
    requires LedgerOk(env, s)
    ensures LedgerOk(env, Exec(env, s, AddTx(tx)))
    ensures Exec(env, s, AddTx(tx)).blocks == s.blocks
  {
    hide ChainOk, TxSet, AltsOk, Rebuild;
    ConfirmedKnown(env, s.blocks);
  }

  lemma {:induction false} ShortenedKeeps(env: Env, s: Ledger, cmd: Command)
    requires LedgerOk(env, s) && (cmd.PopBlock? || cmd.RollbackTo?)
    ensures LedgerOk(env, Exec(env, s, cmd))
  {
    hide ChainOk, TxSet, AltsOk;
    var k := |Exec(env, s, cmd).blocks|;
    ChainPrefix(env, s.blocks, k);
    SuffixNew(env, s.blocks, k);
    if cmd.PopBlock? && s.blocks != [] {
      StoredSemantic(env, s.blocks, k);
      assert Bls(s.blocks[k..]) == [s.blocks[k].bl];
      TxSetOne(s.blocks[k].bl);
    }
    assert s.blocks[..|s.blocks|] == s.blocks;
  }

  ghost predicate Shrinks(cmd: Command) {
    cmd.PopBlock? || cmd.RollbackTo?
  }

  /** Every clean command keeps the ledger sound, and only pops and rollbacks take back confirmations. */
  lemma {:induction false} ExecKeeps(env: Env, s: Ledger, cmd: Command)
    requires LedgerOk(env, s) && Clean(env, s, cmd)
    ensures LedgerOk(env, Exec(env, s, cmd))
    ensures !Shrinks(cmd) ==> TxSet(Bls(s.blocks)) <= TxSet(Bls(Exec(env, s, cmd).blocks))
  {
    hide ChainOk, TxSet, AltsOk, BranchedClean, Extended, Branched, CleanOn, Takes, FreeOk;
    match cmd {
      case AddBlock(b) =>
        if !Known(s, b) {
          if b.previous == TailId(s.blocks) {
            ExtendedKeeps(env, s, b);
          } else {
            BranchedKeeps(env, s, b);
          }
        }
      case AddTx(tx) => AddTxKeeps(env, s, tx);
      case _ => ShortenedKeeps(env, s, cmd);
    }
  }

  // ---- Runs ----

  ghost function ExecAll(env: Env, s: Ledger, cmds: seq<Command>): (r: Ledger)
    requires AltsOk(s.alts)
    decreases |cmds|
  {
    if cmds == [] then s
    else
      ExecAlts(env, s, cmds[0]);
      ExecAll(env, Exec(env, s, cmds[0]), cmds[1..])
  }

  /** Every command of the list is clean in the state that the ones before it lead to. */
  ghost predicate CleanAll(env: Env, s: Ledger, cmds: seq<Command>)
    requires AltsOk(s.alts)
    decreases |cmds|
  {
    cmds == [] ||
    (ExecAlts(env, s, cmds[0]);
     Clean(env, s, cmds[0]) && CleanAll(env, Exec(env, s, cmds[0]), cmds[1..]))
  }

  /** Every run of clean commands leads from a sound ledger to a sound ledger. */
  lemma {:induction false} RunKeeps(env: Env, s: Ledger, cmds: seq<Command>)
    requires LedgerOk(env, s) && CleanAll(env, s, cmds)
    ensures LedgerOk(env, ExecAll(env, s, cmds))
    decreases |cmds|
  {
    hide LedgerOk, Exec, Clean;
    OkAlts(env, s);
    if cmds != [] {
      ExecKeeps(env, s, cmds[0]);
      RunKeeps(env, Exec(env, s, cmds[0]), cmds[1..]);
    }
  }

  lemma {:induction false} OkAlts(env: Env, s: Ledger)
    requires LedgerOk(env, s)
    ensures AltsOk(s.alts)
  {
  }

  /** Over every run without pops and rollbacks, whatever it reorganises, confirmed transactions stay confirmed. */
  lemma {:induction false} ConfirmedSurvive(env: Env, s: Ledger, cmds: seq<Command>)
    requires LedgerOk(env, s) && CleanAll(env, s, cmds)
    requires forall i :: 0 <= i < |cmds| ==> !Shrinks(cmds[i])
    ensures TxSet(Bls(s.blocks)) <= TxSet(Bls(ExecAll(env, s, cmds).blocks))
    decreases |cmds|
  {
    hide LedgerOk, Exec, Clean, TxSet;
    OkAlts(env, s);
    if cmds != [] {
      ExecKeeps(env, s, cmds[0]);
      ConfirmedSurvive(env, Exec(env, s, cmds[0]), cmds[1..]);
    }
  }

  /**
   In every state that clean commands reach from the empty ledger no key image is spent twice, the usage flags are
   exact, no multisignature output is consumed twice above the zone, or at all exactly if the zone blocks are fresh, and
   money is conserved.
   */
  lemma {:induction false} RunIsSafe(env: Env, cmds: seq<Command>)
    requires CleanAll(env, START, cmds)
    ensures var s := ExecAll(env, START, cmds);
            && LedgerOk(env, s)
            && LedgerSafety.SpendsExactly(env, s.blocks, Rebuild(s.blocks))
            && CoinsOf(s.blocks) == Wrap64(LedgerSafety.ChainSupply(s.blocks))
  {
    StartOk(env);
    RunKeeps(env, START, cmds);
    var s := ExecAll(env, START, cmds);
    SoundChain(env, s);
    hide *;
    OkIsAccepted(env, s.blocks);
    LedgerSafety.NoDoubleSpend(env, s.blocks);
    LedgerSafety.MoneyConserved(env, s.blocks);
  }

  lemma {:induction false} StartOk(env: Env)
    ensures LedgerOk(env, START)
  {
    NoTxs();
  }

  lemma {:induction false} SoundChain(env: Env, s: Ledger)
    requires LedgerOk(env, s)
    ensures ChainOk(env, s.blocks)
  {
  }
}
