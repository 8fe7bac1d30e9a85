/** Which branch a block ends and when the chain goes over to it, said without the loops that find out. */
module LedgerBranches {
  import opened LedgerTypes
  import opened LedgerCache
  import opened LedgerChain
  import opened LedgerSteps
  import opened LedgerReorg
  import opened LedgerRun
  import opened LedgerRules
  import opened BlockchainIndices
  import FormatUtils

  // ---- The switch ----

  /** An accepted chain that keeps the blocks below the split and goes on with the branch; its transactions are free. */
  ghost predicate Continuation(env: Env, s: Ledger, altChain: seq<AltEntry>, after: seq<BlockEntry>) {
    && SwitchedTo(s.blocks, after, altChain) && ChainOk(env, after)
    && TxSet(Branch(altChain)) <= s.pool + TxSet(Bls(s.blocks[altChain[0].height..]))
  }

  /** Connecting an accepted chain's own blocks, with their transactions free, gives that chain. */
  lemma {:induction false} ConnectAlong(env: Env, target: seq<BlockEntry>, k: nat, free: set<Hash>)
    requires ChainOk(env, target) && k <= |target| && TxSet(Bls(target[k..])) <= free
    ensures var c := Connect(env, target[..k], free, Bls(target[k..])); c.blocks == target && c.count == |target| - k
    decreases |target| - k
  {
    hide ChainOk, TxSet, HashSet, VerdictOf, Distinct, NamesTxs;
    var branch := Bls(target[k..]);
    if k == |target| {
      assert branch == [] && target[..k] == target;
    } else {
      var b := target[k].bl;
      AcceptedAgain(env, target, k);
      ConfirmedOnce(env, target, k);
      Disconnect(target, k + 1);
      assert branch[0] == b && branch[1..] == Bls(target[k + 1..]);
      assert Taken(env, target[..k], free, b);
      LaterAreFree(env, target, k, free);
      ConnectAlong(env, target, k + 1, free - HashSet(b.txHashes));
    }
  }

  lemma {:induction false} LaterAreFree(env: Env, target: seq<BlockEntry>, k: nat, free: set<Hash>)
    requires ChainOk(env, target) && k < |target| && TxSet(Bls(target[k..])) <= free
    ensures TxSet(Bls(target[k + 1..])) <= free - HashSet(target[k].bl.txHashes)
  {
    hide ChainOk, TxSet, HashSet;
    Disconnect(target, k + 1);
    SuffixNew(env, target, k + 1);
    assert Bls(target[..k + 1]) == Bls(target[..k]) + [target[k].bl];
    TxSetConcat(Bls(target[..k]), [target[k].bl]);
    TxSetOne(target[k].bl);
  }

  /** Connecting keeps the blocks below, and what it connects was free. */
  lemma {:induction false} ConnectTakes(env: Env, blocks: seq<BlockEntry>, free: set<Hash>, branch: seq<Block>)
    ensures var c := Connect(env, blocks, free, branch);
            c.blocks[..|blocks|] == blocks && TxSet(branch[..c.count]) <= free && c.free <= free
    decreases |branch|
  {
    hide TxSet, HashSet, VerdictOf, Distinct, NamesTxs;
    var c := Connect(env, blocks, free, branch);
    if branch != [] && Taken(env, blocks, free, branch[0]) {
      var b, e := branch[0], VerdictOf(env, blocks, branch[0]).entry;
      ConnectTakes(env, blocks + [e], free - HashSet(b.txHashes), branch[1..]);
      assert branch[..c.count] == [b] + branch[1..][..c.count - 1];
      TxSetConcat([b], branch[1..][..c.count - 1]);
      TxSetOne(b);
      assert c.blocks[..|blocks|] == c.blocks[..|blocks| + 1][..|blocks|];
    } else {
      assert branch[..0] == [];
      NoTxs();
    }
  }

  /**
   A branch can be switched to exactly if it starts above the genesis block and below the tip, passes the check on
   reorganisations, lacks no transaction of the blocks it replaces, and some accepted chain continues with it. That
   chain is then the one switched to.
   */
  lemma {:induction false} SwitchExactly(env: Env, s: Ledger, altChain: seq<AltEntry>)
    requires LedgerOk(env, s) && SwitchClean(env, s.blocks, s.pool, altChain)
    ensures Switchable(env, s.blocks, s.pool, altChain) <==>
              && altChain != [] && 1 <= altChain[0].height < |s.blocks| && env.reorgOk(s.blocks, Branch(altChain))
              && TxSet(Bls(s.blocks[altChain[0].height..])) <= TxSet(Branch(altChain))
              && exists after :: Continuation(env, s, altChain, after)
    ensures Switchable(env, s.blocks, s.pool, altChain) ==>
              forall after :: Continuation(env, s, altChain, after) <==> after == Moved(env, s, altChain).blocks
  {
    hide LedgerOk, SwitchClean, Reconnected, TxSet, Continuation, Bls, Branch;
    if MaySwitch(env, s.blocks, altChain) {
      var c := Reconnected(env, s.blocks, s.pool, altChain);
      forall after | Continuation(env, s, altChain, after) ensures c.count == |altChain| && c.blocks == after {
        ContinuationTaken(env, s, altChain, after);
      }
      if c.count == |altChain| {
        TakenContinues(env, s, altChain);
      }
    }
  }

  lemma {:induction false} ContinuationTaken(env: Env, s: Ledger, altChain: seq<AltEntry>, after: seq<BlockEntry>)
    requires altChain != [] && altChain[0].height < |s.blocks| && Continuation(env, s, altChain, after)
    ensures var c := Reconnected(env, s.blocks, s.pool, altChain); c.count == |altChain| && c.blocks == after
  {
    hide ChainOk, TxSet, Connect;
    ConnectAlong(env, after, altChain[0].height, FreeAt(s.blocks, s.pool, altChain[0].height));
  }

  lemma {:induction false} TakenContinues(env: Env, s: Ledger, altChain: seq<AltEntry>)
    requires LedgerOk(env, s) && SwitchClean(env, s.blocks, s.pool, altChain)
    requires Switchable(env, s.blocks, s.pool, altChain)
    ensures Continuation(env, s, altChain, Reconnected(env, s.blocks, s.pool, altChain).blocks)
  {
    hide ChainOk, TxSet, Connect, BranchClean, AltsOk, FreeOk;
    var split, branch := altChain[0].height, Branch(altChain);
    var c, free := Reconnected(env, s.blocks, s.pool, altChain), FreeAt(s.blocks, s.pool, split);
    ReconnectedOk(env, s, altChain);
    ChainPrefix(env, s.blocks, split);
    SuffixNew(env, s.blocks, split);
    FreeUnion(s.pool, TxSet(Bls(s.blocks[split..])));
    ConnectOk(env, s.blocks[..split], free, branch);
    ConnectTakes(env, s.blocks[..split], free, branch);
    assert branch[..c.count] == branch;
    assert Bls(c.blocks[split..]) == Bls(c.blocks)[split..];
  }

  // ---- The branch that a block ends ----

  /** Stored alternatives, each on top of the one before, from one whose predecessor is no alternative up to `from`. */
  ghost predicate PathTo(alts: map<Hash, AltEntry>, from: Hash, path: seq<AltEntry>) {
    && Linked(path)
    && (forall i :: 0 <= i < |path| ==> BlockHash(path[i].bl) in alts && alts[BlockHash(path[i].bl)] == path[i])
    && if path == [] then from !in alts
       else path[0].bl.previous !in alts && BlockHash(path[|path| - 1].bl) == from
  }

  lemma {:induction false} CollectedExactly(alts: map<Hash, AltEntry>, from: Hash, path: seq<AltEntry>)
    requires AltsOk(alts)
    ensures PathTo(alts, from, path) <==> path == Collected(alts, from)
    decreases from
  {
    if from in alts {
      var e, n := alts[from], |path| - 1;
      var more := Collected(alts, e.bl.previous);
      CollectedExactly(alts, e.bl.previous, more);
      if path != [] {
        CollectedExactly(alts, e.bl.previous, path[..n]);
        PathStep(alts, from, path);
        assert path == path[..n] + [path[n]];
      }
      PathStep(alts, from, more + [e]);
      assert (more + [e])[..|more|] == more;
    }
  }

  lemma {:induction false} PathStep(alts: map<Hash, AltEntry>, from: Hash, path: seq<AltEntry>)
    requires AltsOk(alts) && from in alts && path != []
    ensures PathTo(alts, from, path) <==>
              path[|path| - 1] == alts[from] && PathTo(alts, alts[from].bl.previous, path[..|path| - 1])
  {
    var n := |path| - 1;
    var e, below := path[n], path[..n];
    if PathTo(alts, from, path) {
      assert alts[BlockHash(e.bl)] == e;
      assert n > 0 ==> e.bl.previous == BlockHash(path[n - 1].bl);
      assert PathTo(alts, e.bl.previous, below);
    }
    if e == alts[from] && PathTo(alts, e.bl.previous, below) {
      forall i | 0 <= i < |path|
        ensures BlockHash(path[i].bl) in alts && alts[BlockHash(path[i].bl)] == path[i]
        ensures i > 0 ==> path[i].bl.previous == BlockHash(path[i - 1].bl)
      {
        if i < n {
          assert path[i] == below[i] && (i > 0 ==> path[i - 1] == below[i - 1]);
        } else if i > 0 {
          assert path[i - 1] == below[n - 1];
        }
      }
    }
  }

  /** The branch `r` leaves the chain right above a stored block, below the tip if it has alternatives already. */
  ghost predicate Leaves(blocks: seq<BlockEntry>, r: seq<AltEntry>)
    requires r != []
  {
    && 1 <= r[0].height <= |blocks| && (|r| > 1 ==> r[0].height < |blocks|)
    && r[0].bl.previous == BlockHash(blocks[r[0].height - 1].bl)
  }

  /** What it takes for the new block `b` to end the branch `r`. */
  ghost predicate EndsBranch(env: Env, s: Ledger, b: Block, r: seq<AltEntry>) {
    && r != []
    && var n := |r| - 1;
    && r[n].bl == b && PathTo(s.alts, b.previous, r[..n]) && Leaves(s.blocks, r)
    && BlockHash(b) !in s.alts
    && env.altHeaderOk(s.blocks, s.pool, b) && env.altContextOk(s.blocks, Branch(r[..n]), b)
    && var work := env.altDifficulty(s.blocks, r[..n], b);
    && work != 0
    && if n == 0 then r[0].cumulativeDifficulty == s.blocks[r[0].height - 1].cumulativeDifficulty + work
       else r[n].height == r[n - 1].height + 1 && r[n].cumulativeDifficulty == r[n - 1].cumulativeDifficulty + work
  }

  /** A block is registered on a branch exactly if it ends that branch, and then on no other. */
  lemma {:induction false} CandidateExactly(env: Env, s: Ledger, b: Block, r: seq<AltEntry>)
    requires ChainOk(env, s.blocks) && AltsOk(s.alts)
    ensures Candidate(env, s.blocks, s.pool, s.alts, b) == Some(r) <==> EndsBranch(env, s, b, r)
  {
    hide ChainOk, PathTo, AltsOk, Collected, Branch;
    var path := Collected(s.alts, b.previous);
    CollectedExactly(s.alts, b.previous, path);
    CollectedShape(s.alts, b.previous);
    if Candidate(env, s.blocks, s.pool, s.alts, b) == Some(r) {
      assert r[..|r| - 1] == path;
    }
    if EndsBranch(env, s, b, r) {
      var n := |r| - 1;
      CollectedExactly(s.alts, b.previous, r[..n]);
      assert r == path + [r[n]];
      if n == 0 {
        assert Ids(s.blocks)[r[0].height - 1] == b.previous;
        OneHeight(env, s.blocks, r[0].height - 1, IndexIn(Ids(s.blocks), b.previous));
      }
    }
  }

  /** No two stored blocks have the same id. */
  lemma {:induction false} OneHeight(env: Env, blocks: seq<BlockEntry>, i: nat, j: nat)
    requires ChainOk(env, blocks) && i < |blocks| && j < |blocks| && BlockHash(blocks[i].bl) == BlockHash(blocks[j].bl)
    ensures i == j
  {
    hide ChainOk;
    if i < j {
      StoredOnce(env, blocks, i, j);
    } else if j < i {
      StoredOnce(env, blocks, j, i);
    }
  }

  lemma {:induction false} StoredOnce(env: Env, blocks: seq<BlockEntry>, i: nat, j: nat)
    requires ChainOk(env, blocks) && i < j < |blocks|
    ensures blocks[i].bl != blocks[j].bl
  {
    hide ChainOk, AllListedMeet, Due, Median, SumSizes, SumFees, SumOutputs;
    StoredMetRules(env, blocks, j);
    assert blocks[..j][i].bl == blocks[i].bl;
  }

  // ---- Chain and alternatives ----

  /** No block is stored both on the chain and as an alternative. */
  ghost predicate AltsApart(s: Ledger) {
    forall j :: 0 <= j < |s.blocks| ==> BlockHash(s.blocks[j].bl) !in s.alts
  }

  lemma {:induction false} ConnectedBlocks(env: Env, blocks: seq<BlockEntry>, free: set<Hash>, branch: seq<Block>)
    ensures var c := Connect(env, blocks, free, branch); Bls(c.blocks) == Bls(blocks) + branch[..c.count]
    decreases |branch|
  {
    hide HashSet, VerdictOf, Distinct, NamesTxs;
    var c := Connect(env, blocks, free, branch);
    if branch != [] && Taken(env, blocks, free, branch[0]) {
      var e := VerdictOf(env, blocks, branch[0]).entry;
      AcceptedBlock(env, blocks, branch[0]);
      ConnectedBlocks(env, blocks + [e], free - HashSet(branch[0].txHashes), branch[1..]);
      assert branch[..c.count] == [branch[0]] + branch[1..][..c.count - 1];
    }
  }

  lemma {:induction false} MovedApart(env: Env, s: Ledger, altChain: seq<AltEntry>)
    requires AltsApart(s)
    ensures AltsApart(Moved(env, s, altChain))
  {
    hide TxSet, Connect;
    var t := Moved(env, s, altChain);
    if MaySwitch(env, s.blocks, altChain) && Reconnected(env, s.blocks, s.pool, altChain).count == |altChain| {
      var split := altChain[0].height;
      ConnectedBlocks(env, s.blocks[..split], FreeAt(s.blocks, s.pool, split), Branch(altChain));
      forall j | 0 <= j < |t.blocks| ensures BlockHash(t.blocks[j].bl) !in t.alts {
        assert t.blocks[j].bl == Bls(t.blocks)[j];
        if j >= split {
          assert t.blocks[j].bl == altChain[j - split].bl;
        }
      }
    }
  }

  lemma {:induction false} ExecApart(env: Env, s: Ledger, cmd: Command)
    requires AltsOk(s.alts) && AltsApart(s)
    ensures AltsApart(Exec(env, s, cmd))
  {
    hide Moved, Candidate, Preferred, VerdictOf, Rebuild, FormatUtils.Admissible, AltsOk, Takes;
    if cmd.AddBlock? && !Known(s, cmd.block) {
      var b := cmd.block;
      if b.previous == TailId(s.blocks) {
        if Taken(env, s.blocks, s.pool, b) {
          TakenBlock(env, s.blocks, s.pool, b);
        }
      } else {
        var candidate := Candidate(env, s.blocks, s.pool, s.alts, b);
        if candidate.Some? {
          CandidateShape(env, s.blocks, s.pool, s.alts, b);
          RegisteredApart(s, b, candidate.value);
          MovedApart(env, Registered(s, b, candidate.value), candidate.value);
        }
      }
    }
  }

  lemma {:induction false} TakenBlock(env: Env, blocks: seq<BlockEntry>, free: set<Hash>, b: Block)
    requires Taken(env, blocks, free, b)
    ensures VerdictOf(env, blocks, b).entry.bl == b
  {
    AcceptedBlock(env, blocks, b);
    hide VerdictOf;
  }

  lemma {:induction false} RegisteredApart(s: Ledger, b: Block, r: seq<AltEntry>)
    requires AltsApart(s) && r != [] && !Known(s, b)
    ensures AltsApart(Registered(s, b, r))
  {
    forall j | 0 <= j < |s.blocks| ensures BlockHash(s.blocks[j].bl) != BlockHash(b) {
      assert Ids(s.blocks)[j] == BlockHash(s.blocks[j].bl);
    }
  }

  /** In every state that any commands reach no block is stored both on the chain and as an alternative. */
  lemma {:induction false} RunApart(env: Env, s: Ledger, cmds: seq<Command>)
    requires AltsOk(s.alts) && AltsApart(s)
    ensures AltsApart(ExecAll(env, s, cmds))
    decreases |cmds|
  {
    hide AltsOk, AltsApart, Exec;
    if cmds != [] {
      ExecAlts(env, s, cmds[0]);
      ExecApart(env, s, cmds[0]);
      RunApart(env, Exec(env, s, cmds[0]), cmds[1..]);
    }
  }

  /** A branch with a refused block leaves chain and pool alone, and its head is forgotten. */
  lemma {:induction false} RefusedIsForgotten(env: Env, s: Ledger, b: Block)
    requires AltsOk(s.alts) && Candidate(env, s.blocks, s.pool, s.alts, b).Some?
    requires var r := Candidate(env, s.blocks, s.pool, s.alts, b).value;
             && s.blocks != [] && r != [] && Preferred(env, s.blocks, r)
             && MaySwitch(env, s.blocks, r) && !Switchable(env, s.blocks, s.pool, r)
    ensures var t := Branched(env, s, b);
            t.blocks == s.blocks && t.pool == s.pool && BlockHash(b) !in t.alts && t.alts.Keys <= s.alts.Keys
  {
    hide Candidate, Preferred, TxSet, AltsOk, Connect;
    CandidateShape(env, s.blocks, s.pool, s.alts, b);
    var r := Candidate(env, s.blocks, s.pool, s.alts, b).value;
    var c := Reconnected(env, s.blocks, s.pool, r);
    assert r[c.count..][|r| - 1 - c.count].bl == b;
  }

  // ---- What the timestamp index records ----

  ghost predicate StampIs(b: Block, time: nat, h: Hash) {
    BlockHash(b) == h && b.timestamp == time
  }

  ghost predicate Stamped(blocks: seq<BlockEntry>, j: nat, time: nat, h: Hash) {
    j < |blocks| && StampIs(blocks[j].bl, time, h)
  }

  lemma {:induction false} StampedMore(blocks: seq<BlockEntry>, n: nat, j: nat, time: nat, h: Hash)
    requires |blocks| == n + 1
    ensures Stamped(blocks, j, time, h) <==>
              || Stamped(blocks[..n], j, time, h)
              || (j == n && StampIs(blocks[n].bl, time, h))
  {
    assert j < n ==> blocks[j] == blocks[..n][j];
  }

  /** The timestamp index names exactly the stored blocks with their times, each once. */
  lemma {:induction false} TimestampsExactly(env: Env, blocks: seq<BlockEntry>, time: nat, h: Hash)
    requires ChainOk(env, blocks)
    ensures RebuildTimestamps(blocks)[(time, h)] == if exists j: nat :: Stamped(blocks, j, time, h) then 1 else 0
  {
    hide *;
    if blocks == [] {
      NoStamps(time, h);
    } else {
      var n := |blocks| - 1;
      var below, last := blocks[..n], blocks[n].bl;
      ChainPrefix(env, blocks, n);
      TimestampsExactly(env, below, time, h);
      StampAdded(blocks, time, h);
      if j: nat :| Stamped(below, j, time, h) {
        StampedMore(blocks, n, j, time, h);
        StampedBelow(env, blocks, j, time, h);
      } else {
        forall j: nat ensures Stamped(blocks, j, time, h) <==> j == n && StampIs(last, time, h) {
          StampedMore(blocks, n, j, time, h);
        }
        assert Stamped(blocks, n, time, h) <==> StampIs(last, time, h);
      }
    }
  }

  lemma {:induction false} NoStamps(time: nat, h: Hash)
    ensures RebuildTimestamps([])[(time, h)] == 0 && forall j: nat :: !Stamped([], j, time, h)
  {
  }

  lemma {:induction false} StampAdded(blocks: seq<BlockEntry>, time: nat, h: Hash)
    requires blocks != []
    ensures var n := |blocks| - 1;
            RebuildTimestamps(blocks)[(time, h)]
            == RebuildTimestamps(blocks[..n])[(time, h)] + if StampIs(blocks[n].bl, time, h) then 1 else 0
  {
  }

  lemma {:induction false} StampedBelow(env: Env, blocks: seq<BlockEntry>, j: nat, time: nat, h: Hash)
    requires ChainOk(env, blocks) && blocks != [] && Stamped(blocks[..|blocks| - 1], j, time, h)
    ensures !StampIs(blocks[|blocks| - 1].bl, time, h)
  {
    hide ChainOk;
    StoredOnce(env, blocks, j, |blocks| - 1);
  }
}
