/** The work that decides a reorganisation: the difficulties of all blocks from the genesis block on, added up. */
module LedgerWork {
  import opened LedgerTypes
  import opened LedgerCache
  import opened LedgerChain
  import opened LedgerSteps
  import opened LedgerReorg
  import opened LedgerRules
  import opened LedgerRun

  // ---- The main chain ----

  /** The difficulties of the blocks of a chain, added up. */
  ghost function ChainWork(env: Env, blocks: seq<BlockEntry>): nat {
    if blocks == [] then 0
    else
      var n := |blocks| - 1;
      ChainWork(env, blocks[..n]) + env.difficulty(blocks[..n], blocks[n].bl)
  }

  /** Every stored block records the work of the chain that ends in it. */
  lemma {:induction false} StoredWork(env: Env, blocks: seq<BlockEntry>, j: nat)
    requires ChainAccepted(env, blocks) && j < |blocks|
    ensures blocks[j].cumulativeDifficulty == ChainWork(env, blocks[..j + 1])
  {
    hide VerdictOf, BlockTxs, SemanticBlock;
    assert BlockAccepted(env, blocks[..j], blocks[j]);
    EntryExactly(env, blocks[..j], blocks[j].bl);
    assert blocks[..j + 1][..j] == blocks[..j];
    if j > 0 {
      StoredWork(env, blocks, j - 1);
    }
  }

  // ---- Alternative blocks ----

  /** How an alternative block was registered: its entry, and the stored chain and the path below it at that time. */
  datatype Registration = Registration(entry: AltEntry, chain: seq<BlockEntry>, path: seq<AltEntry>)

  /** The difficulties that alternative blocks were given when they were registered, added up. */
  ghost function GivenWork(env: Env, regs: seq<Registration>): nat {
    if regs == [] then 0
    else
      var r := regs[|regs| - 1];
      GivenWork(env, regs[..|regs| - 1]) + env.altDifficulty(r.chain, r.path, r.entry.bl)
  }

  /** Alternative blocks, each on top of the one before, the first on top of a block of the chain stored then. */
  ghost predicate Lineage(env: Env, regs: seq<Registration>) {
    && regs != [] && ChainOk(env, regs[0].chain) && 1 <= regs[0].entry.height <= |regs[0].chain|
    && regs[0].entry.bl.previous == BlockHash(regs[0].chain[regs[0].entry.height - 1].bl)
    && forall i :: 0 < i < |regs| ==> regs[i].entry.bl.previous == BlockHash(regs[i - 1].entry.bl)
  }

  /** The chain below the first of them. */
  ghost function Root(env: Env, regs: seq<Registration>): seq<BlockEntry>
    requires Lineage(env, regs)
  {
    regs[0].chain[..regs[0].entry.height]
  }

  /** The last entry carries the work of the chain below and of all alternative blocks up to it. */
  ghost predicate EarnedBy(env: Env, regs: seq<Registration>, e: AltEntry) {
    && Lineage(env, regs) && regs[|regs| - 1].entry == e
    && e.cumulativeDifficulty == ChainWork(env, Root(env, regs)) + GivenWork(env, regs)
  }

  ghost predicate HasEarned(env: Env, e: AltEntry) {
    exists regs :: EarnedBy(env, regs, e)
  }

  ghost predicate AltsEarned(env: Env, alts: map<Hash, AltEntry>) {
    forall h :: h in alts ==> HasEarned(env, alts[h])
  }

  lemma {:induction false} FirstEarned(env: Env, blocks: seq<BlockEntry>, e: AltEntry) returns (regs: seq<Registration>)
    requires ChainOk(env, blocks) && 1 <= e.height <= |blocks|
    requires e.bl.previous == BlockHash(blocks[e.height - 1].bl)
    requires e.cumulativeDifficulty == blocks[e.height - 1].cumulativeDifficulty + env.altDifficulty(blocks, [], e.bl)
    ensures EarnedBy(env, regs, e) && regs == [Registration(e, blocks, [])] && Root(env, regs) == blocks[..e.height]
  {
    hide ChainOk, ChainAccepted, ChainWork;
    OkIsAccepted(env, blocks);
    StoredWork(env, blocks, e.height - 1);
    regs := [Registration(e, blocks, [])];
    OneGiven(env, regs[0]);
  }

  lemma {:induction false} OneGiven(env: Env, r: Registration)
    ensures GivenWork(env, [r]) == env.altDifficulty(r.chain, r.path, r.entry.bl)
  {
    assert [r][..0] == [];
  }

  lemma {:induction false} NextEarned(env: Env, blocks: seq<BlockEntry>, path: seq<AltEntry>, below: AltEntry,
                                      e: AltEntry, regs: seq<Registration>) returns (all: seq<Registration>)
    requires EarnedBy(env, regs, below) && e.bl.previous == BlockHash(below.bl)
    requires e.cumulativeDifficulty == below.cumulativeDifficulty + env.altDifficulty(blocks, path, e.bl)
    ensures EarnedBy(env, all, e) && all == regs + [Registration(e, blocks, path)]
  {
    hide ChainOk;
    all := regs + [Registration(e, blocks, path)];
    assert all[..|regs|] == regs;
    assert forall i :: 0 < i < |regs| ==> all[i] == regs[i];
  }

  // ---- What every run keeps ----

  /** The head of a candidate carries its work. */
  lemma {:induction false} CandidateEarned(env: Env, s: Ledger, b: Block) returns (regs: seq<Registration>)
    requires LedgerOk(env, s) && AltsEarned(env, s.alts) && Candidate(env, s.blocks, s.pool, s.alts, b).Some?
    ensures var r := Candidate(env, s.blocks, s.pool, s.alts, b).value;
            && r != [] && EarnedBy(env, regs, r[|r| - 1])
            && (b.previous !in s.alts ==>
                  && |regs| == |r| == 1 && Root(env, regs) == s.blocks[..r[0].height]
                  && regs[0] == Registration(r[0], s.blocks, []))
            && (b.previous in s.alts ==>
                  && |regs| > 1 && EarnedBy(env, regs[..|regs| - 1], s.alts[b.previous])
                  && regs[|regs| - 1] == Registration(r[|r| - 1], s.blocks, Collected(s.alts, b.previous)))
  {
    hide ChainOk, EarnedBy, TxSet, Bls, FreeOk;
    var path := Collected(s.alts, b.previous);
    var r := Candidate(env, s.blocks, s.pool, s.alts, b).value;
    var e := r[|r| - 1];
    CollectedShape(s.alts, b.previous);
    if b.previous in s.alts {
      assert HasEarned(env, s.alts[b.previous]);
      var below :| EarnedBy(env, below, s.alts[b.previous]);
      regs := NextEarned(env, s.blocks, path, s.alts[b.previous], e, below);
      assert regs[..|below|] == below;
      EarnedIsSome(env, below, s.alts[b.previous]);
    } else {
      assert path == [] && e == NewEntry(env, s.blocks, [], b);
      hide Candidate, Collected;
      regs := FirstEntryEarned(env, s.blocks, b, e);
    }
  }

  lemma {:induction false} EarnedIsSome(env: Env, regs: seq<Registration>, e: AltEntry)
    requires EarnedBy(env, regs, e)
    ensures regs != []
  {
  }

  lemma {:induction false} FirstEntryEarned(env: Env, blocks: seq<BlockEntry>, b: Block, e: AltEntry)
    returns (regs: seq<Registration>)
    requires ChainOk(env, blocks) && b.previous in Ids(blocks) && e == NewEntry(env, blocks, [], b)
    ensures EarnedBy(env, regs, e) && |regs| == 1 && Root(env, regs) == blocks[..e.height]
    ensures regs[0] == Registration(e, blocks, [])
  {
    hide ChainOk, EarnedBy;
    regs := FirstEarned(env, blocks, e);
  }

  lemma {:induction false} FewerEarned(env: Env, alts: map<Hash, AltEntry>, gone: set<Hash>)
    requires AltsEarned(env, alts)
    ensures AltsEarned(env, alts - gone)
  {
    hide HasEarned;
  }

  lemma {:induction false} MoreEarned(env: Env, alts: map<Hash, AltEntry>, h: Hash, e: AltEntry,
                                      regs: seq<Registration>)
    requires AltsEarned(env, alts) && EarnedBy(env, regs, e)
    ensures AltsEarned(env, alts[h := e])
  {
    hide EarnedBy;
    assert HasEarned(env, e);
  }

  lemma {:induction false} MovedEarned(env: Env, s: Ledger, altChain: seq<AltEntry>)
    requires AltsEarned(env, s.alts)
    ensures AltsEarned(env, Moved(env, s, altChain).alts)
  {
    hide AltsEarned, Connect, BranchIds;
    if MaySwitch(env, s.blocks, altChain) {
      FewerEarned(env, s.alts, BranchIds(altChain));
      FewerEarned(env, s.alts, BranchIds(altChain[Reconnected(env, s.blocks, s.pool, altChain).count..]));
    }
  }

  /** Every command keeps the recorded work right. */
  lemma {:induction false} ExecEarns(env: Env, s: Ledger, cmd: Command)
    requires LedgerOk(env, s) && AltsEarned(env, s.alts)
    ensures AltsEarned(env, Exec(env, s, cmd).alts)
  {
    hide AltsEarned, Moved, Candidate, Preferred, VerdictOf, Rebuild, FormatUtils.Admissible, LedgerOk, AltsOk;
    hide EarnedBy;
    OkAlts(env, s);
    if cmd.AddBlock? && Candidate(env, s.blocks, s.pool, s.alts, cmd.block).Some? {
      var altChain := Candidate(env, s.blocks, s.pool, s.alts, cmd.block).value;
      CandidateShape(env, s.blocks, s.pool, s.alts, cmd.block);
      var regs := CandidateEarned(env, s, cmd.block);
      MoreEarned(env, s.alts, BlockHash(cmd.block), altChain[|altChain| - 1], regs);
      MovedEarned(env, Registered(s, cmd.block, altChain), altChain);
    }
  }

  /** In every state that clean commands reach from the empty ledger each alternative carries its work. */
  lemma {:induction false} RunEarns(env: Env, s: Ledger, cmds: seq<Command>)
    requires LedgerOk(env, s) && AltsEarned(env, s.alts) && CleanAll(env, s, cmds)
    ensures AltsEarned(env, ExecAll(env, s, cmds).alts)
    decreases |cmds|
  {
    hide LedgerOk, Exec, Clean, AltsEarned;
    OkAlts(env, s);
    if cmds != [] {
      ExecKeeps(env, s, cmds[0]);
      ExecEarns(env, s, cmds[0]);
      RunEarns(env, Exec(env, s, cmds[0]), cmds[1..]);
    }
  }

  // ---- Which blocks are counted ----

  /** Blocks from the genesis block on, each on top of the one before. */
  ghost predicate FromGenesis(bls: seq<Block>) {
    && bls != [] && bls[0].previous == NullHash
    && forall i :: 0 < i < |bls| ==> bls[i].previous == BlockHash(bls[i - 1])
  }

  /** A block determines all blocks below it. */
  lemma {:induction false} SameAncestors(x: seq<Block>, y: seq<Block>)
    requires FromGenesis(x) && FromGenesis(y) && x[|x| - 1] == y[|y| - 1]
    ensures x == y
    decreases |x|
  {
    var n, m := |x| - 1, |y| - 1;
    LastPrevious(x);
    LastPrevious(y);
    if n > 0 {
      SameAncestors(x[..n], y[..m]);
      assert x == x[..n] + [x[n]] && y == y[..m] + [y[m]];
    } else {
      assert x == [x[0]] && y == [y[0]];
    }
  }

  lemma {:induction false} LastPrevious(bls: seq<Block>)
    requires FromGenesis(bls)
    ensures bls[|bls| - 1].previous == if |bls| == 1 then NullHash else BlockHash(bls[|bls| - 2])
  {
    var n := |bls| - 1;
    assert n > 0 ==> bls[n].previous == BlockHash(bls[n - 1]);
  }

  lemma {:induction false} ChainFromGenesis(env: Env, blocks: seq<BlockEntry>)
    requires ChainOk(env, blocks) && blocks != []
    ensures FromGenesis(Bls(blocks))
  {
    forall j | 0 <= j < |blocks|
      ensures blocks[j].bl.previous == if j == 0 then NullHash else BlockHash(blocks[j - 1].bl)
    {
      StoredMetRules(env, blocks, j);
      hide ChainOk, AllListedMeet, Due, Median;
      assert HeaderMeets(env, blocks[..j], blocks[j].bl);
    }
  }

  function Entries(regs: seq<Registration>): (r: seq<Block>)
    ensures |r| == |regs| && forall i :: 0 <= i < |regs| ==> r[i] == regs[i].entry.bl
  {
    seq(|regs|, i requires 0 <= i < |regs| => regs[i].entry.bl)
  }

  lemma {:induction false} Extends(bls: seq<Block>, more: seq<Block>)
    requires FromGenesis(bls) && more != [] && more[0].previous == BlockHash(bls[|bls| - 1])
    requires forall i :: 0 < i < |more| ==> more[i].previous == BlockHash(more[i - 1])
    ensures FromGenesis(bls + more)
  {
  }

  /** The work of a candidate's head counts each block from the genesis block to the head, and each once. */
  lemma {:induction false} SameBlocks(env: Env, blocks: seq<BlockEntry>, r: seq<AltEntry>, regs: seq<Registration>)
    requires ChainOk(env, blocks) && Attached(blocks, r) && Lineage(env, regs)
    requires regs[|regs| - 1].entry.bl == r[|r| - 1].bl
    ensures Bls(Root(env, regs)) + Entries(regs) == Bls(blocks[..r[0].height]) + Branch(r)
  {
    hide ChainOk, FromGenesis, Bls, Branch, Entries;
    var split, root := r[0].height, Root(env, regs);
    ChainPrefix(env, blocks, split);
    ChainPrefix(env, regs[0].chain, regs[0].entry.height);
    ChainFromGenesis(env, blocks[..split]);
    ChainFromGenesis(env, root);
    Extends(Bls(blocks[..split]), Branch(r));
    Extends(Bls(root), Entries(regs));
    SameAncestors(Bls(root) + Entries(regs), Bls(blocks[..split]) + Branch(r));
  }

  /** Two sound chains of the same blocks have the same entries. */
  lemma {:induction false} SameChain(env: Env, x: seq<BlockEntry>, y: seq<BlockEntry>)
    requires ChainOk(env, x) && ChainOk(env, y) && Bls(x) == Bls(y)
    ensures x == y
    decreases |x|
  {
    hide *;
    assert |x| == |Bls(x)| == |y|;
    if x != [] {
      var n := |x| - 1;
      ChainPrefix(env, x, n);
      ChainPrefix(env, y, n);
      assert Bls(x)[..n] == Bls(x[..n]) && Bls(y)[..n] == Bls(y[..n]);
      SameChain(env, x[..n], y[..n]);
      assert x[n].bl == Bls(x)[n] == y[n].bl;
      SameEntry(env, x, y, n);
      assert x == x[..n] + [x[n]] && y == y[..n] + [y[n]];
    }
  }

  lemma {:induction false} SameEntry(env: Env, x: seq<BlockEntry>, y: seq<BlockEntry>, n: nat)
    requires ChainOk(env, x) && ChainOk(env, y) && n < |x| && n < |y| && x[..n] == y[..n] && x[n].bl == y[n].bl
    ensures x[n] == y[n]
  {
    hide ChainOk, VerdictOf, BlockOk;
    OkAt(env, x, n);
    OkAt(env, y, n);
  }

  // ---- What decides ----

  /**
   A block that ends a candidate branch makes the chain go over exactly if the branch can be switched to and its head is
   a checkpoint or carries more work than the tip. The work of the tip is that of the stored chain. The work of the
   head is the difficulty, added up, that each block from the genesis block to the head was given when it was stored,
   on the chain or as an alternative; if the branch was an alternative from its first block on, it is the work of the
   chain below the split and what the blocks of the branch were given.
   */
  lemma {:induction false} WorkDecides(env: Env, s: Ledger, b: Block) returns (regs: seq<Registration>)
    requires LedgerOk(env, s) && AltsEarned(env, s.alts) && Candidate(env, s.blocks, s.pool, s.alts, b).Some?
    ensures var r := Candidate(env, s.blocks, s.pool, s.alts, b).value;
            && Attached(s.blocks, r) && Lineage(env, regs)
            && Bls(Root(env, regs)) + Entries(regs) == Bls(s.blocks[..r[0].height]) + Branch(r)
            && (|regs| == |r| ==> Root(env, regs) == s.blocks[..r[0].height])
            && (GoesOver(env, s.blocks, s.pool, s.alts, b) <==>
                  && Switchable(env, s.blocks, s.pool, r)
                  && (|| env.isCheckpoint(r[|r| - 1].height)
                      || ChainWork(env, s.blocks) < ChainWork(env, Root(env, regs)) + GivenWork(env, regs)))
  {
    hide *;
    OkAlts(env, s);
    OkChain(env, s);
    var r := Candidate(env, s.blocks, s.pool, s.alts, b).value;
    CandidateShape(env, s.blocks, s.pool, s.alts, b);
    regs := CandidateEarned(env, s, b);
    EarnedMeans(env, regs, r[|r| - 1]);
    SameBlocks(env, s.blocks, r, regs);
    OkIsAccepted(env, s.blocks);
    StoredWork(env, s.blocks, |s.blocks| - 1);
    assert s.blocks[..|s.blocks|] == s.blocks;
    GoesOverMeans(env, s, b);
    if |regs| == |r| {
      SameRoot(env, s.blocks, r, regs);
    }
  }

  lemma {:induction false} OkChain(env: Env, s: Ledger)
    requires LedgerOk(env, s)
    ensures ChainOk(env, s.blocks)
  {
  }

  lemma {:induction false} EarnedMeans(env: Env, regs: seq<Registration>, e: AltEntry)
    requires EarnedBy(env, regs, e)
    ensures Lineage(env, regs) && regs != [] && regs[|regs| - 1].entry == e
    ensures e.cumulativeDifficulty == ChainWork(env, Root(env, regs)) + GivenWork(env, regs)
  {
  }

  lemma {:induction false} GoesOverMeans(env: Env, s: Ledger, b: Block)
    requires AltsOk(s.alts) && Candidate(env, s.blocks, s.pool, s.alts, b).Some?
    ensures var r := Candidate(env, s.blocks, s.pool, s.alts, b).value;
            && s.blocks != [] && r != [] && Attached(s.blocks, r)
            && (GoesOver(env, s.blocks, s.pool, s.alts, b) <==>
                  && Switchable(env, s.blocks, s.pool, r)
                  && (|| env.isCheckpoint(r[|r| - 1].height)
                      || s.blocks[|s.blocks| - 1].cumulativeDifficulty < r[|r| - 1].cumulativeDifficulty))
  {
    hide Candidate, Switchable, AltsOk, Attached;
    CandidateShape(env, s.blocks, s.pool, s.alts, b);
    AttachedSome(s.blocks, Candidate(env, s.blocks, s.pool, s.alts, b).value);
  }

  lemma {:induction false} AttachedSome(blocks: seq<BlockEntry>, r: seq<AltEntry>)
    requires Attached(blocks, r)
    ensures r != []
  {
  }

  lemma {:induction false} SameRoot(env: Env, blocks: seq<BlockEntry>, r: seq<AltEntry>, regs: seq<Registration>)
    requires ChainOk(env, blocks) && Attached(blocks, r) && Lineage(env, regs) && |regs| == |r|
    requires Bls(Root(env, regs)) + Entries(regs) == Bls(blocks[..r[0].height]) + Branch(r)
    ensures Root(env, regs) == blocks[..r[0].height]
  {
    hide ChainOk;
    var x, y := Bls(Root(env, regs)), Bls(blocks[..r[0].height]);
    assert |x| == |y| && x == (x + Entries(regs))[..|x|] && y == (y + Branch(r))[..|y|];
    ChainPrefix(env, blocks, r[0].height);
    ChainPrefix(env, regs[0].chain, regs[0].entry.height);
    SameChain(env, Root(env, regs), blocks[..r[0].height]);
  }

  lemma {:induction false} ForkHeight(env: Env, blocks: seq<BlockEntry>, b: Block, r: seq<AltEntry>)
    requires ChainOk(env, blocks) && Attached(blocks, r) && r[0].bl == b && |blocks| == 2
    requires b.previous == BlockHash(blocks[0].bl)
    ensures r[0].height == 1
  {
    hide ChainOk, AllListedMeet, Due, Median, SumSizes, SumFees, SumOutputs;
    StoredMetRules(env, blocks, 1);
    assert blocks[..1][0].bl != blocks[1].bl;
  }

  /** Two stored blocks with 10 and 20 of work, and an alternative of difficulty 15 on the first: 25 is more than 20. */
  lemma {:induction false} ForkExample(env: Env, s: Ledger, b: Block)
    requires LedgerOk(env, s) && |s.blocks| == 2 && Candidate(env, s.blocks, s.pool, s.alts, b).Some?
    requires s.blocks[0].cumulativeDifficulty == 10 && s.blocks[1].cumulativeDifficulty == 20
    requires b.previous == BlockHash(s.blocks[0].bl) && b.previous !in s.alts && AltsEarned(env, s.alts)
    requires env.altDifficulty(s.blocks, [], b) == 15
    ensures var r := Candidate(env, s.blocks, s.pool, s.alts, b).value;
            && r != [] && r[|r| - 1].cumulativeDifficulty == 25 && Preferred(env, s.blocks, r)
  {
    hide *;
    OkAlts(env, s);
    OkChain(env, s);
    CandidateShape(env, s.blocks, s.pool, s.alts, b);
    var r := Candidate(env, s.blocks, s.pool, s.alts, b).value;
    var regs := CandidateEarned(env, s, b);
    EarnedMeans(env, regs, r[|r| - 1]);
    OneGiven(env, regs[0]);
    assert regs == [regs[0]];
    ForkHeight(env, s.blocks, b, r);
    OkIsAccepted(env, s.blocks);
    StoredWork(env, s.blocks, 0);
    PreferredMeans(env, s.blocks, r);
  }

  lemma {:induction false} PreferredMeans(env: Env, blocks: seq<BlockEntry>, r: seq<AltEntry>)
    requires blocks != [] && r != []
    requires blocks[|blocks| - 1].cumulativeDifficulty < r[|r| - 1].cumulativeDifficulty
    ensures Preferred(env, blocks, r)
  {
  }

}
