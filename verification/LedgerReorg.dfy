/** Chain switching: what disconnecting, connecting and rolling back blocks does to chain and pool. */
module LedgerReorg {
  import opened LedgerTypes
  import opened LedgerCache
  import opened LedgerInputs
  import opened LedgerChain
  import opened LedgerSteps
  import opened BlockchainIndices

  function Bls(blocks: seq<BlockEntry>): (r: seq<Block>)
    ensures |r| == |blocks| && forall i :: 0 <= i < |blocks| ==> r[i] == blocks[i].bl
  {
    seq(|blocks|, i requires 0 <= i < |blocks| => blocks[i].bl)
  }

  /** Hashes of all non-coinbase transactions confirmed by the blocks. */
  function TxSet(bls: seq<Block>): set<Hash> {
    set j, i | 0 <= j < |bls| && 0 <= i < |bls[j].txHashes| :: bls[j].txHashes[i]
  }

  lemma {:induction false} TxSetConcat(x: seq<Block>, y: seq<Block>)
    ensures TxSet(x + y) == TxSet(x) + TxSet(y)
  {
    var all := x + y;
    forall h | h in TxSet(x) ensures h in TxSet(all) {
      var j, i :| 0 <= j < |x| && 0 <= i < |x[j].txHashes| && x[j].txHashes[i] == h;
      assert all[j] == x[j];
    }
    forall h | h in TxSet(y) ensures h in TxSet(all) {
      var j, i :| 0 <= j < |y| && 0 <= i < |y[j].txHashes| && y[j].txHashes[i] == h;
      assert all[|x| + j] == y[j];
    }
    forall h | h in TxSet(all) ensures h in TxSet(x) + TxSet(y) {
      var j, i :| 0 <= j < |all| && 0 <= i < |all[j].txHashes| && all[j].txHashes[i] == h;
      if j < |x| {
        assert all[j] == x[j];
      } else {
        assert all[j] == y[j - |x|];
      }
    }
  }

  lemma {:induction false} NoTxs()
    ensures TxSet([]) == {}
  {
  }

  lemma {:induction false} TxSetOne(b: Block)
    ensures TxSet([b]) == HashSet(b.txHashes)
  {
    forall h | h in HashSet(b.txHashes) ensures h in TxSet([b]) {
      var i :| 0 <= i < |b.txHashes| && b.txHashes[i] == h;
      assert [b][0].txHashes[i] == h;
    }
  }

  /** Every confirmed transaction is in the transaction map. */
  lemma {:induction false} ConfirmedKnown(env: Env, blocks: seq<BlockEntry>)
    requires ChainOk(env, blocks)
    ensures forall h :: h in TxSet(Bls(blocks)) ==> h in Rebuild(blocks).txMap
  {
    hide ChainOk, Rebuild;
    if blocks != [] {
      var n := |blocks| - 1;
      ChainPrefix(env, blocks, n);
      ConfirmedKnown(env, blocks[..n]);
      LastBlockPooled(env, blocks);
      assert Bls(blocks) == Bls(blocks[..n]) + [blocks[n].bl];
      TxSetConcat(Bls(blocks[..n]), [blocks[n].bl]);
      TxSetOne(blocks[n].bl);
    }
  }

  /** Every recorded transaction but the coinbases is confirmed. */
  lemma {:induction false} KnownConfirmed(env: Env, blocks: seq<BlockEntry>)
    requires ChainOk(env, blocks)
    ensures forall h :: h in Rebuild(blocks).txMap && h.TxHash? && Semantic(h.tx) ==> h in TxSet(Bls(blocks))
  {
    hide ChainOk, BlockOk, BlockAccepted, AddTxs, TxsVerdict, TxSet, Bls, Semantic;
    if blocks != [] {
      var n := |blocks| - 1;
      var below, bl := blocks[..n], blocks[n].bl;
      OkAt(env, blocks, n);
      ChainPrefix(env, blocks, n);
      KnownConfirmed(env, below);
      AcceptedEntry(env, below, blocks[n]);
      NewlyKnown(env, Rebuild(below), n, bl);
      assert Bls(blocks) == Bls(below) + [bl];
      TxSetConcat(Bls(below), [bl]);
      TxSetOne(bl);
    }
  }

  lemma {:induction false} NewlyKnown(env: Env, c: Cache, height: nat, b: Block)
    requires NamesTxs(b) && MinerPrevalidated(env, b.base, height)
    ensures forall h :: h in AddTxs(c, height, BlockTxs(b)).txMap && h.TxHash? && Semantic(h.tx) ==>
                          h in c.txMap || h in HashSet(b.txHashes)
  {
    var txs := BlockTxs(b);
    AddTxsHashes(c, height, txs);
    hide AddTxs;
    forall h | h in AddTxs(c, height, txs).txMap && h.TxHash? && Semantic(h.tx) && h !in c.txMap
      ensures h in HashSet(b.txHashes)
    {
      var i :| 0 <= i < |txs| && txs[i] == h.tx;
      assert i > 0 ==> b.txHashes[i - 1] == h;
    }
  }

  /** Free transactions that the chain does not confirm can be listed by a new block. */
  lemma {:induction false} FreeListsNew(env: Env, blocks: seq<BlockEntry>, free: set<Hash>, b: Block)
    requires ChainOk(env, blocks) && Takes(free, b) && SemanticBlock(b) && free !! TxSet(Bls(blocks))
    ensures ListsNew(blocks, b)
  {
    hide ChainOk, Rebuild, TxSet, Distinct;
    KnownConfirmed(env, blocks);
    forall h | h in HashSet(b.txHashes) ensures h !in Rebuild(blocks).txMap {
      var i :| 0 <= i < |b.txHashes| && b.txHashes[i] == h;
      assert BlockTxs(b)[i + 1] == h.tx && Semantic(BlockTxs(b)[i + 1]);
    }
  }

  /** No transaction is confirmed by two different blocks. */
  lemma {:induction false} ConfirmedOnce(env: Env, blocks: seq<BlockEntry>, k: nat)
    requires ChainOk(env, blocks) && k < |blocks|
    ensures NamesTxs(blocks[k].bl) && Distinct(blocks[k].bl.txHashes)
    ensures HashSet(blocks[k].bl.txHashes) !! TxSet(Bls(blocks[..k]))
  {
    hide ChainOk, Rebuild, Distinct, NamesTxs;
    var upto := blocks[..k + 1];
    ChainPrefix(env, blocks, k + 1);
    ChainPrefix(env, blocks, k);
    LastBlockPooled(env, upto);
    assert upto[..k] == blocks[..k];
    ConfirmedKnown(env, blocks[..k]);
  }

  /** The pool, as the set of its keys, determines the pool. */
  lemma {:induction false} SamePool(p: map<Hash, Transaction>, q: map<Hash, Transaction>)
    requires PoolOk(p) && PoolOk(q) && p.Keys == q.Keys
    ensures p == q
  {
  }

  /** Confirmed transactions and pooled transactions are disjoint. */
  lemma {:induction false} PoolDisjoint(env: Env, pool: map<Hash, Transaction>, blocks: seq<BlockEntry>, s: nat)
    requires ChainOk(env, blocks) && s <= |blocks|
    requires Apart(pool, Rebuild(blocks).txMap)
    ensures pool.Keys !! TxSet(Bls(blocks[s..]))
  {
    hide ChainOk, Rebuild;
    ConfirmedKnown(env, blocks);
    assert Bls(blocks) == Bls(blocks[..s]) + Bls(blocks[s..]);
    TxSetConcat(Bls(blocks[..s]), Bls(blocks[s..]));
  }

  // ---- Disconnecting ----

  lemma {:induction false} Disconnect(blocks: seq<BlockEntry>, m: nat)
    requires 0 < m <= |blocks|
    ensures Bls(blocks[m - 1..]) == [blocks[m - 1].bl] + Bls(blocks[m..])
    ensures TxSet(Bls(blocks[m - 1..])) == HashSet(blocks[m - 1].bl.txHashes) + TxSet(Bls(blocks[m..]))
  {
    assert Bls(blocks[m - 1..]) == [blocks[m - 1].bl] + Bls(blocks[m..]);
    TxSetConcat([blocks[m - 1].bl], Bls(blocks[m..]));
    TxSetOne(blocks[m - 1].bl);
  }

  // ---- Connecting ----

  /** The listed transactions can be taken from the free ones. */
  ghost predicate Takes(free: set<Hash>, b: Block) {
    Distinct(b.txHashes) && HashSet(b.txHashes) <= free && NamesTxs(b)
  }

  /** The block is accepted on `blocks`, its transactions taken from the free ones. */
  ghost predicate Taken(env: Env, blocks: seq<BlockEntry>, free: set<Hash>, b: Block) {
    Takes(free, b) && VerdictOf(env, blocks, b).Accept?
  }

  /**
   Pushing the block neither takes the size exit nor throws nor reads past the end of a vector; and if it is rejected,
   the undo restores the indexes.
   */
  ghost predicate CleanOn(env: Env, blocks: seq<BlockEntry>, b: Block)
    requires NamesTxs(b)
  {
    var v := VerdictOf(env, blocks, b);
    v != Oversized && v != Threw && ZoneStored(env, blocks, b) && (v == Reject ==> Restores(env, blocks, b))
  }

  /** Blocks, free transactions and number of blocks after connecting a branch up to its first refused block. */
  datatype Connection = Connection(blocks: seq<BlockEntry>, free: set<Hash>, count: nat)

  ghost function Connect(env: Env, blocks: seq<BlockEntry>, free: set<Hash>, branch: seq<Block>): (r: Connection)
    ensures r.count <= |branch| && |r.blocks| == |blocks| + r.count
    decreases |branch|
  {
    if branch == [] || !Taken(env, blocks, free, branch[0]) then Connection(blocks, free, 0)
    else
      var e := VerdictOf(env, blocks, branch[0]).entry;
      var r := Connect(env, blocks + [e], free - HashSet(branch[0].txHashes), branch[1..]);
      r.(count := r.count + 1)
  }

  /** Every block that is pushed while the branch is being connected is clean. */
  ghost predicate BranchClean(env: Env, blocks: seq<BlockEntry>, free: set<Hash>, branch: seq<Block>)
    decreases |branch|
  {
    branch == [] ||
    (Takes(free, branch[0]) ==>
      && CleanOn(env, blocks, branch[0])
      && var v := VerdictOf(env, blocks, branch[0]);
         v.Accept? ==> BranchClean(env, blocks + [v.entry], free - HashSet(branch[0].txHashes), branch[1..]))
  }

  /** One turn of the connect loop, on the rest of the branch. */
  lemma {:induction false} ConnectStep(env: Env, blocks: seq<BlockEntry>, free: set<Hash>, branch: seq<Block>, k: nat)
    requires k < |branch|
    ensures var b := branch[k];
            var here := Connect(env, blocks, free, branch[k..]);
            if Taken(env, blocks, free, b) then
              var next := Connect(env, blocks + [VerdictOf(env, blocks, b).entry], free - HashSet(b.txHashes),
                                  branch[k + 1..]);
              here == next.(count := next.count + 1)
            else here == Connection(blocks, free, 0)
    ensures BranchClean(env, blocks, free, branch[k..]) && Takes(free, branch[k]) ==>
              && CleanOn(env, blocks, branch[k])
              && var v := VerdictOf(env, blocks, branch[k]);
                 v.Accept? ==> BranchClean(env, blocks + [v.entry], free - HashSet(branch[k].txHashes), branch[k + 1..])
  {
    hide VerdictOf, CleanOn, Takes;
    assert branch[k..][0] == branch[k] && branch[k..][1..] == branch[k + 1..];
  }

  lemma {:induction false} NothingToConnect(env: Env, blocks: seq<BlockEntry>, free: set<Hash>)
    ensures Connect(env, blocks, free, []) == Connection(blocks, free, 0)
  {
  }

  lemma {:induction false} TakesAvailable(pool: map<Hash, Transaction>, b: Block)
    requires PoolOk(pool)
    ensures Takes(pool.Keys, b) <==> Available(pool, b.txHashes)
    ensures (pool - HashSet(b.txHashes)).Keys == pool.Keys - HashSet(b.txHashes)
  {
    if Available(pool, b.txHashes) {
      AvailableNames(pool, b);
    }
    hide Distinct, NamesTxs;
  }

  lemma {:induction false} ConnectOne(blocks: seq<BlockEntry>, s: nat, e: BlockEntry)
    requires s <= |blocks|
    ensures Bls((blocks + [e])[s..]) == Bls(blocks[s..]) + [e.bl]
    ensures TxSet(Bls((blocks + [e])[s..])) == TxSet(Bls(blocks[s..])) + HashSet(e.bl.txHashes)
  {
    assert Bls((blocks + [e])[s..]) == Bls(blocks[s..]) + [e.bl];
    TxSetConcat(Bls(blocks[s..]), [e.bl]);
    TxSetOne(e.bl);
  }

  lemma {:induction false} AcceptedBlock(env: Env, blocks: seq<BlockEntry>, b: Block)
    requires NamesTxs(b) && VerdictOf(env, blocks, b).Accept?
    ensures VerdictOf(env, blocks, b).entry.bl == b
  {
    hide Rebuild, TxsVerdict, HeaderAccepted, MinerValidated, RewardFor, SumSizes, SumFees, EntryTxs;
  }

  // ---- Rolling back ----

  /** Pushing the next block of a stored chain again succeeds and stores the same entry. */
  lemma {:induction false} AcceptedAgain(env: Env, target: seq<BlockEntry>, k: nat)
    requires ChainOk(env, target) && k < |target|
    ensures NamesTxs(target[k].bl) && VerdictOf(env, target[..k], target[k].bl) == Accept(target[k])
    ensures ZoneStored(env, target[..k], target[k].bl)
    ensures target[..k] + [target[k]] == target[..k + 1]
  {
    hide VerdictOf, ZoneStored;
    assert BlockOk(env, target[..k], target[k]);
  }

  /** The transactions of the next block of a stored chain are in the pool when it is pushed again. */
  lemma {:induction false} AvailableAgain(env: Env, target: seq<BlockEntry>, s: nat, k: nat,
                                          pool: map<Hash, Transaction>, total: set<Hash>)
    requires ChainOk(env, target) && s <= k < |target|
    requires TxSet(Bls(target[s..])) <= total && pool.Keys == total - TxSet(Bls(target[s..k]))
    ensures Available(pool, target[k].bl.txHashes)
    ensures pool.Keys - HashSet(target[k].bl.txHashes) == total - TxSet(Bls(target[s..k + 1]))
  {
    hide ChainOk, Distinct, TxSet, HashSet, Bls;
    ConfirmedOnce(env, target, k);
    assert Bls(target[..k]) == Bls(target[..s]) + Bls(target[s..k]);
    TxSetConcat(Bls(target[..s]), Bls(target[s..k]));
    assert Bls(target[s..k + 1]) == Bls(target[s..k]) + [target[k].bl];
    TxSetConcat(Bls(target[s..k]), [target[k].bl]);
    TxSetOne(target[k].bl);
    assert Bls(target[s..]) == Bls(target[s..k + 1]) + Bls(target[k + 1..]);
    TxSetConcat(Bls(target[s..k + 1]), Bls(target[k + 1..]));
  }

  // ---- The switch as a whole ----

  /** `IndexThrew`: the block vector was asked for an index past its end. */
  datatype SwitchResult = Switched | RolledBack | Refused | IndexThrew

  function Branch(altChain: seq<AltEntry>): (r: seq<Block>)
    ensures |r| == |altChain| && forall i :: 0 <= i < |altChain| ==> r[i] == altChain[i].bl
  {
    seq(|altChain|, i requires 0 <= i < |altChain| => altChain[i].bl)
  }

  /** The chain below the split is kept and the branch follows it. */
  ghost predicate SwitchedTo(before: seq<BlockEntry>, after: seq<BlockEntry>, altChain: seq<AltEntry>) {
    && altChain != []
    && var split := altChain[0].height;
    && split < |before| && split <= |after|
    && after[..split] == before[..split]
    && Bls(after[split..]) == Branch(altChain)
  }

  function BranchIds(altChain: seq<AltEntry>): set<Hash> {
    set i | 0 <= i < |altChain| :: BlockHash(altChain[i].bl)
  }

  lemma {:induction false} BranchIdsStep(before: seq<AltEntry>, e: AltEntry)
    ensures BranchIds(before + [e]) == BranchIds(before) + {BlockHash(e.bl)}
  {
    var all := before + [e];
    assert all[|before|] == e;
    forall h | h in BranchIds(before) ensures h in BranchIds(all) {
      var i :| 0 <= i < |before| && BlockHash(before[i].bl) == h;
      assert all[i] == before[i];
    }
  }

  lemma {:induction false} HashSetConcat(x: seq<Hash>, y: seq<Hash>)
    ensures HashSet(x + y) == HashSet(x) + HashSet(y)
  {
    var all := x + y;
    forall h | h in HashSet(x) + HashSet(y) ensures h in HashSet(all) {
      if h in HashSet(x) {
        var i :| 0 <= i < |x| && x[i] == h;
        assert all[i] == h;
      } else {
        var i :| 0 <= i < |y| && y[i] == h;
        assert all[|x| + i] == h;
      }
    }
  }

  lemma {:induction false} TakenFrom(pool: map<Hash, Transaction>, hashes: seq<Hash>)
    requires Available(pool, hashes)
    ensures (pool - HashSet(hashes)).Keys == pool.Keys - HashSet(hashes) && HashSet(hashes) <= pool.Keys
  {
  }

  /** A branch that passed the transaction comparison confirms everything that was confirmed before. */
  lemma {:induction false} KeepsConfirmed(before: seq<BlockEntry>, split: nat, branch: seq<Block>,
                                          after: seq<BlockEntry>)
    requires split <= |before| && TxSet(Bls(before[split..])) <= TxSet(branch)
    requires Bls(after) == Bls(before[..split]) + branch
    ensures TxSet(Bls(before)) <= TxSet(Bls(after))
  {
    hide TxSet;
    assert Bls(before) == Bls(before[..split]) + Bls(before[split..]);
    TxSetConcat(Bls(before[..split]), Bls(before[split..]));
    TxSetConcat(Bls(before[..split]), branch);
  }

  /** The checks before the first loop of the switch. */
  predicate SwitchAllowed(env: Env, blocks: seq<BlockEntry>, altChain: seq<AltEntry>) {
    altChain != [] && altChain[0].height < |blocks| && env.reorgOk(blocks, Branch(altChain))
  }

  /**
   The guards of the switch: the branch starts inside the chain, above its first block, and lacks no confirmed
   transaction.
   */
  ghost predicate MaySwitch(env: Env, blocks: seq<BlockEntry>, altChain: seq<AltEntry>) {
    && SwitchAllowed(env, blocks, altChain) && 1 <= altChain[0].height
    && TxSet(Bls(blocks[altChain[0].height..])) <= TxSet(Branch(altChain))
  }

  /** The transactions that are free once the blocks from the split on are disconnected. */
  function FreeAt(blocks: seq<BlockEntry>, pool: set<Hash>, split: nat): set<Hash>
    requires split <= |blocks|
  {
    pool + TxSet(Bls(blocks[split..]))
  }

  /** What connecting the branch in place of the blocks from its split on gives. */
  ghost function Reconnected(env: Env, blocks: seq<BlockEntry>, pool: set<Hash>, altChain: seq<AltEntry>): Connection
    requires altChain != [] && altChain[0].height < |blocks|
  {
    var split := altChain[0].height;
    Connect(env, blocks[..split], FreeAt(blocks, pool, split), Branch(altChain))
  }

  /** What it takes to switch: the guards hold and every block is accepted in turn. */
  ghost predicate Switchable(env: Env, blocks: seq<BlockEntry>, pool: set<Hash>, altChain: seq<AltEntry>) {
    MaySwitch(env, blocks, altChain) && Reconnected(env, blocks, pool, altChain).count == |altChain|
  }

  /**
   The switch pushes only clean blocks, and taking blocks away restores the indexes: those that it disconnects, and,
   if a block of the branch is refused, those connected before it.
   */
  ghost predicate SwitchClean(env: Env, blocks: seq<BlockEntry>, pool: set<Hash>, altChain: seq<AltEntry>) {
    MaySwitch(env, blocks, altChain) ==>
      var split, c := altChain[0].height, Reconnected(env, blocks, pool, altChain);
      && BranchClean(env, blocks[..split], FreeAt(blocks, pool, split), Branch(altChain))
      && NothingBack(blocks, split) && (c.count < |altChain| ==> NothingBack(c.blocks, split))
  }

  // ---- Alternative blocks ----

  datatype AddResult = AddedToMain | SwitchedChain | StoredAlternative | Orphaned | AlreadyExists | FailedCheck

  ghost predicate AltsOk(alts: map<Hash, AltEntry>) {
    forall h :: h in alts ==> h == BlockHash(alts[h].bl) && 1 <= alts[h].height
  }

  ghost predicate Linked(altChain: seq<AltEntry>) {
    forall i :: 0 < i < |altChain| ==> altChain[i].bl.previous == BlockHash(altChain[i - 1].bl)
  }

  /** A linked branch that leaves the stored chain right below its first block. */
  ghost predicate Attached(blocks: seq<BlockEntry>, altChain: seq<AltEntry>) {
    && altChain != [] && Linked(altChain)
    && 1 <= altChain[0].height <= |blocks|
    && altChain[0].bl.previous == BlockHash(blocks[altChain[0].height - 1].bl)
  }

  /** The rule for reorganising: the head of the branch is a checkpoint or has more accumulated work than the tip. */
  ghost predicate Preferred(env: Env, blocks: seq<BlockEntry>, altChain: seq<AltEntry>)
    requires blocks != [] && altChain != []
  {
    var head := altChain[|altChain| - 1];
    env.isCheckpoint(head.height) || blocks[|blocks| - 1].cumulativeDifficulty < head.cumulativeDifficulty
  }

  /** The stored alternatives that lead to `from`, oldest first. */
  ghost function Collected(alts: map<Hash, AltEntry>, from: Hash): (r: seq<AltEntry>)
    requires AltsOk(alts)
    ensures r == [] <==> from !in alts
    ensures r != [] ==> r[|r| - 1] == alts[from]
    decreases from
  {
    if from in alts then Collected(alts, alts[from].bl.previous) + [alts[from]] else []
  }

  lemma {:induction false} CollectedShape(alts: map<Hash, AltEntry>, from: Hash)
    requires AltsOk(alts)
    ensures var r := Collected(alts, from);
            && Linked(r) && (r != [] ==> 1 <= r[0].height && BlockHash(r[|r| - 1].bl) == from)
            && forall i :: 0 <= i < |r| ==> BlockHash(r[i].bl) in alts
    decreases from
  {
    if from in alts {
      CollectedShape(alts, alts[from].bl.previous);
    }
  }

  /** The ids of the stored blocks, which is what the block index lists. */
  function Ids(blocks: seq<BlockEntry>): (r: seq<Hash>)
    ensures |r| == |blocks| && forall i :: 0 <= i < |blocks| ==> r[i] == BlockHash(blocks[i].bl)
  {
    seq(|blocks|, i requires 0 <= i < |blocks| => BlockHash(blocks[i].bl))
  }

  /** The first block of the path leaves the stored chain where it claims to. */
  ghost predicate LeavesChain(blocks: seq<BlockEntry>, path: seq<AltEntry>)
    requires path != [] && 1 <= path[0].height
  {
    path[0].height < |blocks| && BlockHash(blocks[path[0].height - 1].bl) == path[0].bl.previous
  }

  /** The entry for a new block on top of a path, or right on top of the main chain. */
  ghost function NewEntry(env: Env, blocks: seq<BlockEntry>, path: seq<AltEntry>, b: Block): AltEntry
    requires path == [] ==> b.previous in Ids(blocks)
  {
    var work := env.altDifficulty(blocks, path, b);
    if path != [] then
      AltEntry(b, path[|path| - 1].height + 1, path[|path| - 1].cumulativeDifficulty + work)
    else
      var h := IndexIn(Ids(blocks), b.previous);
      AltEntry(b, h + 1, blocks[h].cumulativeDifficulty + work)
  }

  /** The branch that a new alternative block ends, if it passes the checks of `handle_alternative_block`. */
  ghost function Candidate(env: Env, blocks: seq<BlockEntry>, pool: set<Hash>, alts: map<Hash, AltEntry>,
                           b: Block): (r: Option<seq<AltEntry>>)
    requires AltsOk(alts)
  {
    var path := Collected(alts, b.previous);
    CollectedShape(alts, b.previous);
    if !env.altHeaderOk(blocks, pool, b) || (b.previous !in Ids(blocks) && b.previous !in alts) then None
    else if path != [] && !LeavesChain(blocks, path) then None
    else if !env.altContextOk(blocks, Branch(path), b) || env.altDifficulty(blocks, path, b) == 0
            || BlockHash(b) in alts then None
    else Some(path + [NewEntry(env, blocks, path, b)])
  }

  /** A candidate is linked, leaves the stored chain right below its first block and ends in the new block. */
  lemma {:induction false} CandidateShape(env: Env, blocks: seq<BlockEntry>, pool: set<Hash>, alts: map<Hash, AltEntry>,
                                          b: Block)
    requires AltsOk(alts) && Candidate(env, blocks, pool, alts, b).Some?
    ensures var r := Candidate(env, blocks, pool, alts, b).value;
            && blocks != [] && Attached(blocks, r) && r[|r| - 1].bl == b
            && AltsOk(alts[BlockHash(b) := r[|r| - 1]])
            && forall i :: 0 <= i < |r| - 1 ==> BlockHash(r[i].bl) in alts
  {
    var path := Collected(alts, b.previous);
    CollectedShape(alts, b.previous);
    var r := Candidate(env, blocks, pool, alts, b).value;
    hide Collected, Branch;
    if path == [] {
      assert r == [r[0]];
    } else {
      assert r[0] == path[0] && r[|path| - 1] == path[|path| - 1];
    }
  }

  /** The new block ends a branch that the rule prefers and that can be switched to. */
  ghost predicate GoesOver(env: Env, blocks: seq<BlockEntry>, pool: set<Hash>, alts: map<Hash, AltEntry>, b: Block)
    requires AltsOk(alts)
  {
    var candidate := Candidate(env, blocks, pool, alts, b);
    candidate.Some? &&
    (CandidateShape(env, blocks, pool, alts, b);
     Preferred(env, blocks, candidate.value) && Switchable(env, blocks, pool, candidate.value))
  }
}
