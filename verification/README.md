# Verification of a CryptoNote node

This project models the parts of the node that hold its state together, and proves what they promise. It is written
for Dafny 4.11; `dafny verify dfyconfig.toml` checks all of it.

## What is modelled

**The ledger** (`LedgerTypes`, `LedgerCache`, `LedgerInputs`, `LedgerUndo`, `LedgerChain`, `LedgerSteps`,
`LedgerSafety`, `LedgerExamples`, `LedgerReorg`, `LedgerRun`, `LedgerRules`, `LedgerWork`, `LedgerBranches`,
`LedgerAdmission`, `OutputIndex`, `BlockchainIndices`, `FormatUtils`, `Blockchain`). The class `Blockchain` keeps the
block list and, in place and step by step, the block index, the transaction map, the spent key images, the per-amount
output vectors, the multisignature usage flags, the explorer indexes, the alternative blocks and the pool.
`rebuildCache` is the specification: `Rebuild` is what it computes from a block list, and `Consistent()` says that every
stored block was accepted on the blocks below it and that every index is what rebuilding computes. Every operation is
proved to keep this, or is proved to lose it exactly where the code loses it. On top of it stand conservation of money,
absence of double spends, all-or-nothing reorganisation and the survival of confirmed transactions. `LedgerRun`
specifies what each command of a node does to chain, pool and alternative blocks; the object is proved to execute every
list of commands as specified, and the theorems hold in every state reached.

**Reward and miner template** (`Reward`, `Miner`, `WideArith`). Decomposition of the reward into digits, merging of outputs,
the governance share, the sizing loop, the penalty with its 128-bit arithmetic, and the 256-bit proof-of-work comparison.

**The crash-safe file vector** (`FileLayout`, `FileMappedVector`). The byte layout and its inverse, and the protocol of
temporary file, backup and renames. A crash is a limit on the number of durable effects that still happen, so each contract
speaks about a crash after every step. Renames, removals and writes of one word are atomic and flushed bytes are durable;
any other write passes through arbitrary bytes.

**Codecs** (`JsonText`, `JsonRoundTrip`, `JsonGrammar`, `JsonReader`, `JsonWriter`, `Radix`, `Base58`, `Varint`).
Printer and recursive reader of JSON values, the texts that the reader accepts written out as a grammar with spaces,
block-wise Base58, variable-length integers and checksummed addresses.

**Small protocols** (`BlockingQueue`, `BlockIndex`, `ShuffleGenerator`). The bounded queue as a system of interleaved steps
with spurious wake-ups, sparse chains for synchronisation, and the lazily stored shuffle.

## What the code does not meet

Each of these is stated as an exact condition, and where a concrete input is short it is a lemma of its own.

- The size check of `pushBlock` returns without undoing the transactions it has pushed
  (lib/CryptoNoteCore/Blockchain.cpp:2803-2806), unlike the exits around it. Above the checkpoint zone the indexes equal the
  rebuilt ones afterwards if and only if the exit was neither this one nor an exception (`PushBlockWith`, `PushBlock`,
  `SizeExitExample`); for the zone see below. The exception is thrown when a multisignature input names an output of the block
  under construction, which is not stored yet (:3117-3119, `ThrowExample`).
- Multisignature inputs are not validated in the checkpoint zone (:2281), and a block there can consume an output twice
  (`ZoneReuseExample`). An accepted chain that can be rebuilt consumes nothing twice if and only if its zone blocks consume only
  outputs unused at their turn (`DoubleSpendExactly`). Blocks above the zone never consume again what any block consumed
  (`NoDoubleSpendOutside`).
- Undoing a transaction clears usage flags without remembering whether they were set before, so it restores the indexes if and
  only if the outputs were unused (`PopUndoesAdd`, `PopTxsExactly`). So after popping or rolling back blocks the indexes are the
  rebuilt ones if and only if the removed blocks consumed nothing that the remaining ones consumed (`RemoveLastBlock`,
  `RollbackBlockchainTo`, `ZonePopExample`), and after a reject if and only if the block consumed no used output (`PushBlockWith`,
  `ZoneRejectExample`).
- The loops of the switch count an unsigned index down to the split height, so a branch that starts at height 0 makes the
  block vector throw (lib/CryptoNoteCore/Blockchain.cpp:1196, `SwitchToAlternative`). `handle_alternative_block` gives each entry
  the height of its predecessor plus one, so it never passes such a branch on (`CandidateShape`, `HandleAlternativeBlock`).
- A crash while a file vector is created leaves a file that does not open exactly after the first of three durable steps, and one
  that opens without room exactly after the second (`Open`).
- `resetAndSetGenesisBlock` clears neither the multisignature outputs nor the last generated-transaction total, so it
  leaves an inconsistent node if and only if there was one of these, and always if a block was stored (`Reset`).
- Absolute ring offsets are ascending if and only if their 32-bit running sum does not wrap (`AscendingIffNoWrap`,
  `WrapExample`).
- `read_varint` returns a number that the end of the input cuts off like a complete one, so `decode_addr` accepts addresses
  that `encode_addr` never produces (`AddrCanonical`, `CutOffTagAccepted`).
- The comment in `decode_block` that the digit weight never overflows is wrong for the eleventh digit; the wrapped weight is
  never used (`DecodeBlock`).
- JSON strings are written raw, so the round trip holds if and only if they are escape-closed (`PrintThenParse`).
- The 64-bit reward never rises with the size of the block if and only if base reward and fee add up below 2^64, or fees are
  penalised and even the block one short of twice the median is paid 2^64 or more (`RewardRisesExactly`,
  `WrappedRewardRises`).
- With governance enabled and no coins generated yet, `constructMinerTx` adds the share to the full reward and fails unless the
  share is zero (`ConstructMinerTx`, `FirstShareExample`).

## Assumptions

- Hashes are symbolic terms, so equal hashes mean equal blocks or transactions, and hash chains have no cycles.
- Signatures, proof of work, timestamps, difficulty, checkpoints, the base reward, the median of sizes and the Poisson check are fixed functions
  and guards of the stored chain and the block, gathered in `Env`. In particular acceptance of a block on a chain does not
  change over time.
- A block that is pushed inside the checkpoint zone is assumed to name stored outputs (`ZoneStored`, a condition on the block and
  the chain below it); otherwise marking one reads past the end of a vector. It may consume them again.
- A switch assumes this of the blocks of its branch, that none of them takes the size exit or throws, and that what it takes away
  consumed nothing that stays (`SwitchClean`). `addNewBlock` and runs of commands assume it of what they push and undo (`Clean`).
- The pool is a map from hashes to transactions that passed `check_tx_semantic`, and it takes back every transaction given to it.
- The template theorem assumes that the pool reports exact sizes and fees and that the base reward does not depend on the
  coinbase.

## Model

| member | source | states |
|---|---|---|
| LedgerRun.RunIsSafe | lib/CryptoNoteCore/Blockchain.cpp:2595-2639 | in every state that any list of clean commands (new block, new transaction, pop, rollback) reaches from the empty ledger: the chain is accepted block by block, no key image is spent twice, the spent set and the usage flags are exact, no block above the checkpoint zone consumes again what any block consumed, no output at all is consumed twice if and only if the zone blocks consume unused outputs, and the generated coins equal the supply modulo 2^64; clean: no pushed block takes the size exit or throws, and what is undone can be undone |
| LedgerRun.RunKeeps | lib/CryptoNoteCore/Blockchain.cpp:2595-2639 | every list of clean commands keeps the chain sound, the pool free of confirmed transactions and the alternative store well formed |
| LedgerRun.ConfirmedSurvive | lib/CryptoNoteCore/Blockchain.cpp:1193-1260 | over every list of clean commands without pops and rollbacks the set of confirmed transactions never shrinks, whatever reorganisations happen |
| LedgerRun.ExecKeeps | lib/CryptoNoteCore/Blockchain.cpp:2595-2639 | each clean command keeps a sound ledger sound, and only pops and rollbacks take back a confirmation |
| LedgerRun.MovedKeeps | lib/CryptoNoteCore/Blockchain.cpp:1095-1260 | an attempt to switch, successful or not, keeps the ledger sound and loses no confirmed transaction |
| LedgerRun.ConnectOk | lib/CryptoNoteCore/Blockchain.cpp:1237-1260 | connecting a branch block by block onto a sound chain gives a sound chain, whose blocks are the old ones followed by exactly the connected ones, and leaves in the pool nothing that it confirms |
| LedgerRun.SuffixNew | lib/CryptoNoteCore/Blockchain.cpp:1193-1227 | what the blocks from a height on confirm is well formed and disjoint from what the blocks below confirm |
| LedgerBranches.SwitchExactly | lib/CryptoNoteCore/Blockchain.cpp:1095-1260 | the chain can be switched to a branch if and only if the branch starts above the genesis block and below the tip, passes the check on reorganisations, lacks no transaction of the blocks it replaces, and some accepted chain keeps the blocks below the split and goes on with it, its transactions being in the pool or in the replaced blocks; that chain is the only one, and the one switched to |
| LedgerBranches.CandidateExactly | lib/CryptoNoteCore/Blockchain.cpp:1543-1722 | a new block is registered on a branch if and only if the branch is the path of stored alternatives below it from one whose predecessor is no alternative, leaves the chain right above a stored block, the checks pass, the block is new, and height and work are those of its predecessor plus one and plus its difficulty |
| LedgerBranches.CollectedExactly | lib/CryptoNoteCore/Blockchain.cpp:1604-1614 | exactly one path of stored alternatives leads to a block from where no alternative is below |
| LedgerBranches.OneHeight | lib/CryptoNoteCore/Blockchain.cpp:2671-2677 | no two stored blocks have the same id |
| LedgerBranches.RunApart | lib/CryptoNoteCore/Blockchain.cpp:2595-2639 | in every state that any list of commands reaches no block is stored both on the chain and as an alternative |
| LedgerBranches.RefusedIsForgotten | lib/CryptoNoteCore/Blockchain.cpp:1237-1256 | a preferred branch with a refused block leaves chain and pool as they were, and its head is no longer stored |
| LedgerAdmission.RunAdmits | lib/CryptoNoteCore/Core.cpp:458-530 | in every state that any commands reach, every pooled and every confirmed transaction passed the semantic check, since only the pool admits transactions |
| LedgerAdmission.ExecHeld | lib/CryptoNoteCore/Blockchain.cpp:3429-3461 | no command but adding a transaction brings one that neither the pool nor the chain held |
| LedgerAdmission.OnlyCoinbasesCreate | lib/CryptoNoteCore/Core.cpp:458-530 | in every state that clean commands reach from the empty ledger, outputs minus inputs over the whole chain are at most what the coinbases paid out |
| LedgerWork.StoredWork | lib/CryptoNoteCore/Blockchain.cpp:2826-2831 | in every accepted chain each stored block records the sum of the difficulties of all blocks up to it |
| LedgerWork.CandidateEarned | lib/CryptoNoteCore/Blockchain.cpp:1699-1706 | the head of every candidate branch carries the work of the chain below it plus the difficulties that its alternatives were given |
| LedgerWork.RunEarns | lib/CryptoNoteCore/Blockchain.cpp:1543-1777 | in every state that clean commands reach, every stored alternative carries the sum of the difficulties that the blocks from the genesis block to it were given |
| LedgerWork.SameBlocks | lib/CryptoNoteCore/Blockchain.cpp:1699-1706 | that sum counts exactly the blocks from the genesis block to the head of the branch, each once |
| LedgerWork.WorkDecides | lib/CryptoNoteCore/Blockchain.cpp:1726-1777 | the chain goes over to a candidate branch if and only if it can be switched to and its head is a checkpoint or its sum of difficulties exceeds that of the stored chain |
| LedgerWork.ForkExample | lib/CryptoNoteCore/Blockchain.cpp:1699-1742 | two stored blocks with 10 and 20 of work and an alternative of difficulty 15 on the first: 25, which is preferred |
| LedgerWork.SameAncestors | lib/CryptoNoteCore/Blockchain.cpp:2697-2705 | a block determines all blocks below it |
| LedgerWork.SameChain | lib/CryptoNoteCore/Blockchain.cpp:2662-2865 | two sound chains of the same blocks have the same stored entries |
| LedgerRules.TxExactly | lib/CryptoNoteCore/Blockchain.cpp:2235-2302 | the input checks pass if and only if no input is a base input, every key input has a ring that is not empty and an unspent image and, above the zone, passes the ring check, and every multisignature input above the zone names a stored, unused output of a stored block whose transaction is unlocked, whose required count is the number of signatures given, and whose signatures hold; they throw exactly at the first input whose output is of the block under construction or whose ring check throws |
| LedgerRules.ListedMetRules | lib/CryptoNoteCore/Blockchain.cpp:2765-2801 | in every accepted chain each listed transaction met this rule at its turn |
| LedgerRules.HeaderExactly | lib/CryptoNoteCore/Blockchain.cpp:2662-2764 | the checks before an index is touched hold exactly for a new block on top of the tip whose header passes, with a difficulty, and with a coinbase of one base input of its height, the unlock time of the window, no signatures and outputs below 2^64 |
| LedgerRules.MinerExactly | lib/CryptoNoteCore/Blockchain.cpp:1417-1477 | the coinbase is accepted if and only if the block is at most twice the median and the outputs add up, modulo 2^64, to base reward and fee, scaled by size(2m - size)/m^2 above the median m |
| LedgerRules.FullRewardRefused | lib/CryptoNoteCore/Blockchain.cpp:1417-1477 | above the median a coinbase that pays the whole positive base reward and the fees is refused |
| LedgerRules.LimitKept | lib/CryptoNoteCore/Blockchain.cpp:2575-2593 | an accepted block keeps within the limit stored before it, which is twice the median |
| LedgerRules.LastSizesAre | lib/CryptoNoteCore/Blockchain.cpp:1431-1433 | the median is taken over the sizes of the last blocks, in order, at most as many as the window |
| LedgerRules.SumsAppend | lib/CryptoNoteCore/Blockchain.cpp:2796-2800 | size and fees of a block are those of its transactions added up, without a fee of the coinbase |
| LedgerRules.AmountsAppend | lib/CryptoNoteCore/CryptoNoteFormatUtils.cpp:471-512 | sums of inputs and outputs grow by the amount of each |
| LedgerRules.AcceptExactly | lib/CryptoNoteCore/Blockchain.cpp:2662-2865 | pushBlock accepts a block if and only if header, every listed transaction at its turn, size and coinbase meet the written-out rules; it takes the size exit, and throws, exactly in the stated cases |
| LedgerRules.EntryExactly | lib/CryptoNoteCore/Blockchain.cpp:2826-2831 | the stored entry has the size, the work of the tip plus its difficulty, and the coins of the tip plus reward minus fee, modulo 2^64 |
| LedgerRules.StoredMetRules | lib/CryptoNoteCore/Blockchain.cpp:2662-2865 | in every sound chain each block met every rule on the blocks below it |
| LedgerRules.RecordedAt | lib/CryptoNoteCore/Blockchain.cpp:2904-2921 | in every sound chain the transaction map records exactly the stored transactions, each at its block and position |
| LedgerRules.PaymentsExactly | lib/CryptoNoteCore/BlockchainIndices.cpp:40-55 | in every sound chain the payment index names exactly the stored transactions with that payment id, each once |
| LedgerBranches.TimestampsExactly | lib/CryptoNoteCore/BlockchainIndices.cpp:133-142 | in every sound chain the timestamp index names exactly the stored blocks with their times, each once |
| LedgerSafety.DoubleSpendExactly | lib/CryptoNoteCore/Blockchain.cpp:2280-2290 | among the accepted chains that can be rebuilt, those that consume no multisignature output twice are exactly those whose blocks inside the checkpoint zone consume only outputs unused at their turn |
| LedgerInputs.FlagsAreConsumed | lib/CryptoNoteCore/Blockchain.cpp:631-677 | in every chain that can be rebuilt, whatever the zone accepted, the rebuilt usage flags are set for exactly the outputs that the chain consumes |
| LedgerInputs.FreshIffDistinct | lib/CryptoNoteCore/Blockchain.cpp:2941-2947 | against exact flags, a list of transactions consumes only unused outputs, each at its turn, if and only if it consumes nothing twice and nothing consumed before |
| LedgerSafety.AboveIsFresh | lib/CryptoNoteCore/Blockchain.cpp:3084-3115 | above the zone each transaction of an accepted block consumes, at its turn, stored and unused outputs |
| LedgerSafety.FreshIsNew | lib/CryptoNoteCore/Blockchain.cpp:2280-2290 | a block consumes only unused outputs, each at its turn, if and only if it consumes nothing twice and nothing that the chain below consumed |
| LedgerSafety.OkExactly | lib/CryptoNoteCore/Blockchain.cpp:2280-2290 | the chains that the object can hold are exactly the accepted ones that can be rebuilt and whose zone blocks list transactions not recorded below |
| LedgerSafety.NoDoubleSpend | lib/CryptoNoteCore/Blockchain.cpp:2904-2947 | in every such chain all key images are pairwise distinct and are exactly the spent set, the usage flags are true exactly for the consumed outputs, no block above the zone consumes again what was consumed, and every output is consumed at most once if and only if the zone blocks consume unused outputs |
| LedgerSafety.NoDoubleSpendOutside | lib/CryptoNoteCore/Blockchain.cpp:2235-2302 | for every accepted chain, whatever its zone blocks consume: all key images are pairwise distinct and are exactly the spent set, and the blocks above the zone consume every multisignature output at most once; if the chain can be rebuilt, also none that any block below, zone included, has consumed |
| LedgerSafety.AboveZoneIsNew | lib/CryptoNoteCore/Blockchain.cpp:3084-3115 | a block above the zone consumes no multisignature output twice and none that the chain below it consumed |
| LedgerSafety.CheckedImages | lib/CryptoNoteCore/Blockchain.cpp:2249-2263 | a transaction that passed the checks brings only new key images, in the zone or not |
| LedgerSafety.CheckedMsigs | lib/CryptoNoteCore/Blockchain.cpp:3084-3115 | above the zone a transaction that passed the checks consumes only unused outputs, which are used afterwards |
| LedgerExamples.ZoneReuseExample | lib/CryptoNoteCore/Blockchain.cpp:2280-2290 | a concrete block inside the checkpoint zone that is accepted, can be rebuilt, and consumes one multisignature output twice |
| LedgerExamples.ZonePopExample | lib/CryptoNoteCore/Blockchain.cpp:3044-3061 | a concrete chain of two zone blocks whose upper block consumes what the lower one consumed, so that removing it does not give back the lower one's indexes |
| LedgerExamples.ZoneRejectExample | lib/CryptoNoteCore/Blockchain.cpp:2811-2824 | a concrete zone block that consumes a used output and is rejected for its coinbase, so that the undo does not restore the indexes |
| LedgerExamples.ZoneVerdict | lib/CryptoNoteCore/Blockchain.cpp:2662-2865 | on every chain the zone accepts every block of such spenders whose coinbase pays nothing, and rejects those that pay something |
| LedgerSafety.EmissionIsSupply | lib/CryptoNoteCore/Blockchain.cpp:2773-2831 | an accepted block raises the generated coins, modulo 2^64, by its outputs minus its key and multisignature inputs |
| LedgerSafety.MoneyConserved | lib/CryptoNoteCore/Blockchain.cpp:1426-1474 | in every chain of accepted blocks the generated coins of the tip equal, modulo 2^64, all outputs minus all key and multisignature inputs of the whole chain |
| LedgerReorg.ConfirmedOnce | lib/CryptoNoteCore/Blockchain.cpp:2774-2801 | no transaction of a stored block is confirmed again by another stored block or twice by the same one |
| LedgerReorg.KeepsConfirmed | lib/CryptoNoteCore/Blockchain.cpp:1193-1227 | a branch that passed the transaction comparison confirms, on top of the blocks below the split, everything that was confirmed before |
| LedgerReorg.CandidateShape | lib/CryptoNoteCore/Blockchain.cpp:1604-1722 | the branch that an alternative block is registered on is linked block to block, leaves the main chain right below its first block, consists of stored alternatives and ends in the new block |
| LedgerReorg.KnownConfirmed | lib/CryptoNoteCore/Blockchain.cpp:2904-2921 | every recorded transaction but the coinbases is listed by a stored block |
| LedgerReorg.AvailableAgain | lib/CryptoNoteCore/Blockchain.cpp:1067-1093 | when the original chain is pushed again, the transactions of each next block are in the pool |
| LedgerCache.FlagsRoundTrip | lib/CryptoNoteCore/Blockchain.cpp:2968-3070 | setting and then clearing usage flags gives the old flags back if and only if all of them were clear |
| LedgerCache.PopOutputsUndoesAdd | lib/CryptoNoteCore/Blockchain.cpp:2968-3070 | removing outputs in reverse undoes appending them, emptied per-amount vectors included, and takes no "consistency broken" branch |
| LedgerCache.PopUndoesAdd | lib/CryptoNoteCore/Blockchain.cpp:2904-3070 | popTransaction after pushTransaction takes no "consistency broken" branch, and restores every index if and only if the multisignature outputs consumed were unused |
| LedgerCache.PopExactly | lib/CryptoNoteCore/Blockchain.cpp:2968-3070 | popTransaction takes no "consistency broken" branch and leaves given indexes if and only if pushing the transaction at its recorded position onto those, where nothing it consumes is used, gives the indexes it was called on |
| LedgerCache.AddUndoesPopOutputs | lib/CryptoNoteCore/Blockchain.cpp:2971-3042 | whenever removing outputs takes no "consistency broken" branch, appending them again gives the vectors back |
| LedgerChain.CheckedIsPushable | lib/CryptoNoteCore/Blockchain.cpp:2235-2302 | a transaction that passed the semantic and the input checks is always accepted by pushTransaction, whose result is ignored; inside the zone if it is new and names stored outputs, used or not |
| LedgerChain.PassedArePushable | lib/CryptoNoteCore/Blockchain.cpp:2765-2801 | the same for the coinbase and for each transaction of a block on what the earlier ones left behind |
| LedgerChain.StoredArePushable | lib/CryptoNoteCore/Blockchain.cpp:631-677 | the transactions of every stored block were accepted by pushTransaction, each on what the earlier ones left |
| LedgerChain.ChainRecorded | lib/CryptoNoteCore/Blockchain.cpp:2867-2880 | in every accepted chain the block index lists exactly the block hashes, in order, and every recorded position is of a stored block |
| LedgerSteps.LastBlockUndone | lib/CryptoNoteCore/Blockchain.cpp:3191-3209 | popping the last block, also after other pops, gives what rebuilding from the shorter block list gives but for the cleared flags of what was consumed, and takes no "consistency broken" branch if and only if the block consumed nothing twice and nothing popped before |
| LedgerUndo.PopTxsExactly | lib/CryptoNoteCore/Blockchain.cpp:3072-3082 | for pushed transactions, in the zone or not: popping them gives the old indexes with the flags of what they consumed cleared, which are the old indexes if and only if none of it was used before; no "consistency broken" branch is taken if and only if no two consumed the same output |
| LedgerUndo.PopTxsClears | lib/CryptoNoteCore/Blockchain.cpp:2968-3082 | popping pushed transactions last first, after some flags were cleared by later pops, gives the old indexes with exactly the flags of everything consumed cleared |
| LedgerUndo.ClearsNothing | lib/CryptoNoteCore/Blockchain.cpp:3044-3061 | against exact flags, clearing some of them changes nothing if and only if none of those outputs was consumed |
| LedgerSteps.ClearedChain | lib/CryptoNoteCore/Blockchain.cpp:3044-3061 | clearing flags leaves the indexes of a stored chain alone if and only if the chain consumed nothing of what is cleared |
| LedgerSteps.RejectRestores | lib/CryptoNoteCore/Blockchain.cpp:2784-2824 | above the zone every rejected block leaves the indexes as they were, whichever transaction was refused |
| LedgerSteps.StoppedClears | lib/CryptoNoteCore/Blockchain.cpp:2784-2824 | what a rejected block clears is what its transactions before the refused one consume |
| LedgerSteps.LastBlockPooled | lib/CryptoNoteCore/Blockchain.cpp:2882-2902 | the transactions of a popped block are distinct, well formed, and no longer known to the transaction map |
| LedgerSteps.UndoDefined | lib/CryptoNoteCore/Blockchain.cpp:2784-2794 | at every point of the transaction loop the undo is defined, gives what rebuilding computes but for the cleared flags of what was pushed, and restores the payment index |
| LedgerSteps.LeftBehind | lib/CryptoNoteCore/Blockchain.cpp:2803-2806 | stopping without the undo always leaves indexes that differ from what rebuilding computes |
| LedgerSteps.SizeExitExample | lib/CryptoNoteCore/Blockchain.cpp:2803-2806 | a concrete block, a coinbase of 1100 bytes under a limit of 1000, for which pushBlock takes the size exit and leaves its coinbase in the indexes |
| LedgerSteps.ThrowExample | lib/CryptoNoteCore/Blockchain.cpp:3117-3119 | a concrete block whose second transaction consumes a multisignature output of its own coinbase: looking it up throws, and the coinbase stays in the indexes |
| LedgerSteps.ChainRebuildDefined | lib/CryptoNoteCore/Blockchain.cpp:653-660 | rebuilding never reads a missing multisignature output in an accepted chain |
| LedgerSteps.AcceptedExtends | lib/CryptoNoteCore/Blockchain.cpp:2867-2880 | storing an entry on top of the pushed transactions gives exactly the rebuilt indexes of the longer chain |
| BlockchainStore.Blockchain.ConsistentIsSafe | lib/CryptoNoteCore/Blockchain.cpp:2867-3082 | in every consistent state of the object its own fields show distinct key images, exact flags, no reuse above the zone, conserved money and exact output vectors |
| BlockchainStore.Blockchain.constructor | lib/CryptoNoteCore/Blockchain.cpp:359-383 | an empty ledger is consistent |
| BlockchainStore.Blockchain.PushTransaction | lib/CryptoNoteCore/Blockchain.cpp:2904-2966 | succeeds exactly on fresh transactions; then every index is what rebuilding would compute and the returned global indexes are the positions in the amount vectors; refusals change nothing |
| BlockchainStore.Blockchain.InsertImages | lib/CryptoNoteCore/Blockchain.cpp:2923-2939 | all key images are inserted if and only if they are distinct and unspent; a double spend leaves the spent set as it was |
| BlockchainStore.Blockchain.UndoImages | lib/CryptoNoteCore/Blockchain.cpp:2926-2937 | the undo loop removes exactly the images of the earlier inputs, and throws exactly if one of them is not a key input |
| BlockchainStore.Blockchain.MarkUsed | lib/CryptoNoteCore/Blockchain.cpp:2941-2947 | exactly the referenced multisignature outputs become used |
| BlockchainStore.Blockchain.AppendOutputs | lib/CryptoNoteCore/Blockchain.cpp:2949-2961 | each output is appended to the vector of its amount and kind and its position is returned |
| BlockchainStore.Blockchain.PopTransaction | lib/CryptoNoteCore/Blockchain.cpp:2968-3070 | computes the undo that `PopExactly` characterises, and reports a "consistency broken" branch exactly when it takes one |
| BlockchainStore.Blockchain.RemoveOutputs | lib/CryptoNoteCore/Blockchain.cpp:2971-3042 | the outputs are removed last first, with every "consistency broken" branch of the vectors |
| BlockchainStore.Blockchain.ReleaseInputs | lib/CryptoNoteCore/Blockchain.cpp:3044-3061 | the key images are erased and the flags cleared, and the report is clean exactly when all were there |
| BlockchainStore.Blockchain.PopTransactions | lib/CryptoNoteCore/Blockchain.cpp:3072-3082 | the pushed transactions are popped last first, the coinbase at the end |
| BlockchainStore.Blockchain.CheckTransactionInputs | lib/CryptoNoteCore/Blockchain.cpp:2235-2302 | computes the verdict that `TxExactly` characterises, including the exception for an output of the block under construction |
| BlockchainStore.Blockchain.PrevalidateMinerTransaction | lib/CryptoNoteCore/Blockchain.cpp:1372-1415 | accepts exactly one base input of the next height, the unlock time of the window, no signatures and no output overflow |
| BlockchainStore.Blockchain.ValidateMinerTransaction | lib/CryptoNoteCore/Blockchain.cpp:1417-1477 | accepts exactly when the outputs add up to the reward of the block size and fees, and returns the emission |
| BlockchainStore.Blockchain.FlagsBack | lib/CryptoNoteCore/Blockchain.cpp:3044-3061 | the object is consistent after flags were cleared if and only if its chain consumed nothing of what is cleared |
| BlockchainStore.Blockchain.PushBlockWith | lib/CryptoNoteCore/Blockchain.cpp:2662-2865 | the exit taken is the verdict on the stored chain; acceptance appends the entry; a reject clears the flags of what was pushed; consistency with rebuildCache holds afterwards if and only if the block was added, or rejected without having consumed a used output, which is always so above the zone |
| BlockchainStore.Blockchain.PushAll | lib/CryptoNoteCore/Blockchain.cpp:2759-2801 | the coinbase and transaction loop: on the first refused transaction every index is restored but for the flags of what was pushed |
| BlockchainStore.Blockchain.UndoAll | lib/CryptoNoteCore/Blockchain.cpp:2811-2824 | the undo of a reject exit restores every index but for the flags of what was pushed |
| BlockchainStore.Blockchain.StoreEntry | lib/CryptoNoteCore/Blockchain.cpp:2826-2862 | the accepting exit makes all indexes equal to the rebuilt ones of the longer chain and refreshes the size limit |
| BlockchainStore.Blockchain.CheckHeader | lib/CryptoNoteCore/Blockchain.cpp:2662-2764 | holds exactly for blocks that pass every check made before an index is touched |
| BlockchainStore.Blockchain.PushEntry | lib/CryptoNoteCore/Blockchain.cpp:2867-2880 | the entry enters the block list, the block index and the two explorer indexes |
| BlockchainStore.Blockchain.UpdateNextCumulativeSizeLimit | lib/CryptoNoteCore/Blockchain.cpp:2575-2593 | the limit is twice the effective median that the next block is judged by |
| BlockchainStore.Blockchain.LoadTransactions | lib/CryptoNoteCore/Blockchain.cpp:3429-3450 | takes all listed transactions from the pool, or none when one is missing |
| BlockchainStore.Blockchain.SaveTransactions | lib/CryptoNoteCore/Blockchain.cpp:3452-3461 | all given transactions are in the pool afterwards |
| BlockchainStore.Blockchain.PushBlock | lib/CryptoNoteCore/Blockchain.cpp:2646-2660 | transactions move from the pool into the chain, or stay in the pool; the state is valid afterwards if and only if the block was added, or rejected without having consumed a used output, which is always so above the zone |
| BlockchainStore.Blockchain.RemoveLastBlock | lib/CryptoNoteCore/Blockchain.cpp:3191-3209 | the chain is shortened by one block; all indexes are the rebuilt ones if and only if the shorter chain consumed nothing that the removed blocks consumed; a "consistency broken" branch is taken exactly if the block consumed something twice or something cleared before |
| BlockchainStore.Blockchain.PopBlock | lib/CryptoNoteCore/Blockchain.cpp:2882-2902 | as removeLastBlock, and exactly the popped block's transactions come back to the pool |
| BlockchainStore.Blockchain.RollbackBlockchainTo | lib/CryptoNoteCore/Blockchain.cpp:3184-3189 | the chain is cut to the given height; all indexes are the rebuilt ones, and every other operation may follow, if and only if the removed blocks consumed nothing that the remaining ones consumed |
| BlockchainStore.Blockchain.RebuildCache | lib/CryptoNoteCore/Blockchain.cpp:631-677 | the loops compute the specification from the block list alone |
| BlockchainStore.Blockchain.RebuildBlock | lib/CryptoNoteCore/Blockchain.cpp:639-673 | one turn of the block loop adds exactly that block to the specification |
| BlockchainStore.Blockchain.RebuildTransaction | lib/CryptoNoteCore/Blockchain.cpp:646-672 | one turn of the transaction loop adds exactly that transaction to the specification |
| BlockchainStore.Blockchain.Reset | lib/CryptoNoteCore/Blockchain.cpp:706-720 | after the clearing the ledger is consistent if and only if there were no multisignature outputs and no generated-transaction total, which are not cleared; so never if a block was stored |
| BlockchainStore.Blockchain.AddToPool | lib/CryptoNoteCore/Core.cpp:2113-2120 | succeeds if and only if the transaction passes the semantic checks; then it enters the pool exactly if it is not confirmed; the state stays valid |
| BlockchainStore.Blockchain.RollbackBlockchainSwitching | lib/CryptoNoteCore/Blockchain.cpp:1067-1093 | from a height of at least 1: the original block list, every index and the pool come back, and every push on the way succeeds |
| BlockchainStore.Blockchain.PopDownTo | lib/CryptoNoteCore/Blockchain.cpp:1072-1075 | the failed blocks are popped, their transactions are in the pool, and the indexes are the rebuilt ones but for the flags of what they consumed |
| BlockchainStore.Blockchain.LacksTransaction | lib/CryptoNoteCore/Blockchain.cpp:1193-1227 | throws exactly for a split height of 0, where the loop index wraps; otherwise tells exactly whether the branch lacks a transaction that the blocks to be disconnected confirm |
| BlockchainStore.Blockchain.SwitchToAlternative | lib/CryptoNoteCore/Blockchain.cpp:1095-1260 | all or nothing: switches if and only if the guards hold, no confirmed transaction is missing and every block is accepted in turn; chain, pool and alternative store are then exactly what the run specification says; otherwise blocks, indexes and pool are what they were; throws exactly for a branch that starts at height 0; nothing confirmed is lost |
| BlockchainStore.Blockchain.Reorganise | lib/CryptoNoteCore/Blockchain.cpp:1229-1260 | connects exactly as many blocks as are accepted in turn; with all of them the chain is the old prefix followed by the branch, with fewer everything is as before |
| BlockchainStore.Blockchain.DisconnectTo | lib/CryptoNoteCore/Blockchain.cpp:1229-1235 | the blocks above the split are popped, returned in order, their transactions are in the pool, and the indexes are the rebuilt ones but for the flags of what those blocks consumed |
| BlockchainStore.Blockchain.ConnectBranch | lib/CryptoNoteCore/Blockchain.cpp:1237-1260 | pushes the branch up to its first refused block; chain, pool and count are exactly those of accepting block after block |
| BlockchainStore.Blockchain.EraseBranch | lib/CryptoNoteCore/Blockchain.cpp:1248-1256 | exactly the entries of the branch from the failed block on leave the alternative store |
| BlockchainStore.Blockchain.HandleAlternativeBlock | lib/CryptoNoteCore/Blockchain.cpp:1543-1777 | the chain goes over if and only if the block makes a linked branch attached to the main chain whose head is a checkpoint or has more work than the tip, and every block of it is accepted in turn; on every other exit the chain and the pool are unchanged; orphaned exactly if the predecessor is unknown |
| BlockchainStore.Blockchain.RegisterAlternative | lib/CryptoNoteCore/Blockchain.cpp:1543-1777 | orphaned exactly if the predecessor is unknown; stored if and only if it extends a branch that leaves the main chain and passes the checks, with the right height and accumulated work; a switch is asked for if and only if the head is a checkpoint or has more work |
| BlockchainStore.Blockchain.MakeBranch | lib/CryptoNoteCore/Blockchain.cpp:1604-1722 | computes the branch that an alternative block ends, or none, as `CandidateExactly` characterises it; the work of its head is the sum that `WorkDecides` compares |
| BlockchainStore.Blockchain.CollectBranch | lib/CryptoNoteCore/Blockchain.cpp:1604-1614 | the loop collects exactly the stored alternatives that lead to the block, oldest first |
| BlockchainStore.Blockchain.AddNewBlock | lib/CryptoNoteCore/Blockchain.cpp:2595-2639 | chain, pool and alternatives become exactly what the run specification says; known blocks are refused; the chain grows exactly by a new block on the tip whose transactions are pooled and that is accepted, and goes over exactly to a preferred branch that can be switched to; nothing confirmed is lost; the state stays valid |
| BlockchainStore.Blockchain.Step | lib/CryptoNoteCore/Blockchain.cpp:2595-2639 | each clean command, executed on the object, does what the run specification says and keeps every index equal to the rebuilt one |
| BlockchainStore.Blockchain.Execute | lib/CryptoNoteCore/Blockchain.cpp:2595-2639 | after every list of clean commands every index is the rebuilt one and the state is the specified one; without pops and rollbacks the confirmed set has not shrunk |
| BlockchainStore.Blockchain.ValidIsOk | lib/CryptoNoteCore/Blockchain.cpp:2595-2639 | a valid object is a sound ledger, so everything proved about runs holds of it |
| LedgerChain.FindId | lib/CryptoNoteCore/BlockIndex.h:62-72 | finds the position of a block id or tells that it is absent |
| BlockchainIndices.PaymentIdIndex.Add | lib/CryptoNoteCore/BlockchainIndices.cpp:40-55 | one entry is added exactly if the transaction carries a payment id |
| BlockchainIndices.PaymentIdIndex.Remove | lib/CryptoNoteCore/BlockchainIndices.cpp:57-78 | removes one such entry and tells whether there was one |
| BlockchainIndices.PaymentIdIndex.Clear | lib/CryptoNoteCore/BlockchainIndices.cpp:111-116 | empties the index |
| BlockchainIndices.TimestampBlocksIndex.Add | lib/CryptoNoteCore/BlockchainIndices.cpp:133-142 | adds the pair |
| BlockchainIndices.TimestampBlocksIndex.Remove | lib/CryptoNoteCore/BlockchainIndices.cpp:144-159 | removes one occurrence of the pair and tells whether there was one |
| BlockchainIndices.TimestampBlocksIndex.Clear | lib/CryptoNoteCore/BlockchainIndices.cpp:189-194 | empties the index |
| BlockchainIndices.GeneratedTransactionsIndex.Add | lib/CryptoNoteCore/BlockchainIndices.cpp:289-309 | the entry for the next height is the running total including the block |
| BlockchainIndices.GeneratedTransactionsIndex.Remove | lib/CryptoNoteCore/BlockchainIndices.cpp:311-336 | removes the last entry and goes back to the total before it, or refuses any other height and changes nothing |
| BlockchainIndices.TotalsRemove | lib/CryptoNoteCore/BlockchainIndices.cpp:311-336 | removing the last block succeeds and gives back exactly the totals of the shorter chain |
| BlockchainIndices.GeneratedTransactionsIndex.Clear | lib/CryptoNoteCore/BlockchainIndices.cpp:358-363 | empties the map and keeps the last total |
| BlockchainIndices.TotalsCount | lib/CryptoNoteCore/BlockchainIndices.cpp:289-309 | the total at a height is the number of transactions in all blocks up to it |
| BlockchainIndices.TotalsAdd | lib/CryptoNoteCore/BlockchainIndices.cpp:289-309 | adding a block at the next height keeps the totals equal to the rebuilt ones |
| OutputIndex.RebuildLists | lib/CryptoNoteCore/Blockchain.cpp:2949-2961 | the vector of an amount and kind lists exactly the outputs of that amount and kind, in chain order |
| OutputIndex.VectorsPointBack | lib/CryptoNoteCore/Blockchain.cpp:2949-2961 | every vector entry names a stored output of its amount and kind, and the entries are in chain order |
| OutputIndex.GlobalIndexesPointBack | lib/CryptoNoteCore/Blockchain.cpp:2949-2961 | for every stored output the amount vector at its recorded global index names that very output |
| OutputIndex.KeyVectorOrdered | lib/CryptoNoteCore/Blockchain.cpp:2949-2961 | key output vectors are ordered by block |
| OutputIndex.KeyVectorStored | lib/CryptoNoteCore/Blockchain.cpp:2949-2961 | every entry of a key output vector names a stored key output of that amount |
| OutputIndex.FindEndOfAllowedIndex | lib/CryptoNoteCore/Blockchain.cpp:1910-1928 | the result ends the last entry whose block plus unlock window is at most the height; on a vector ordered by block exactly the entries below it have that |
| OutputIndex.ScanOutputKeys | lib/CryptoNoteCore/Blockchain.h:451-500 | succeeds exactly if every ring member exists, is a key output of the amount and is unlocked; the highest block is that of the last member, which bounds all of them if the offsets do not wrap |
| OutputIndex.RelativeToAbsolute | lib/CryptoNoteCore/CryptoNoteFormatUtils.cpp:678-685 | each absolute offset is the 32-bit running sum |
| OutputIndex.AscendingIffNoWrap | lib/CryptoNoteCore/CryptoNoteFormatUtils.cpp:678-685 | absolute ring offsets are ascending if and only if the 32-bit running sum never wraps |
| OutputIndex.WrapExample | lib/CryptoNoteCore/CryptoNoteFormatUtils.cpp:678-685 | the offsets 5 and 2^32 - 2 stand for 5 and 3 |
| OutputIndex.AbsoluteToRelative | lib/CryptoNoteCore/CryptoNoteFormatUtils.cpp:687-700 | the offsets are put in order, none lost or added, and the result is the differences of neighbours |
| OutputIndex.SortedOfSorts | lib/CryptoNoteCore/CryptoNoteFormatUtils.cpp:693 | the ordered offsets are ascending and hold the same offsets as often |
| OutputIndex.OffsetsRoundTrip | lib/CryptoNoteCore/CryptoNoteFormatUtils.cpp:678-700 | going to relative offsets and back gives the same 32-bit offsets |
| FormatUtils.CheckMultisignatureInputsDiff | lib/CryptoNoteCore/CryptoNoteFormatUtils.cpp:452-464 | true exactly if no multisignature output is referenced twice |
| FormatUtils.CheckKeyImagesDiff | lib/CryptoNoteCore/Core.cpp:532-599 | true exactly if key images are distinct and in their domain and no ring repeats an index |
| FormatUtils.CheckOutsOverflow | lib/CryptoNoteCore/CryptoNoteFormatUtils.cpp:493-503 | the wrapping test is exact: true exactly if the outputs add up below 2^64 |
| FormatUtils.CheckInputsOverflow | lib/CryptoNoteCore/CryptoNoteFormatUtils.cpp:471-491 | the wrapping test is exact: true exactly if the inputs add up below 2^64 |
| FormatUtils.CheckInputTypes | lib/CryptoNoteCore/CryptoNoteFormatUtils.cpp:379-388 | true exactly if there is no base input |
| FormatUtils.CheckTxSemantic | lib/CryptoNoteCore/Core.cpp:458-530 | true exactly if the transaction is well formed, spends nothing twice and its outputs do not exceed its inputs |
| Reward.BlockReward | lib/CryptoNoteCore/Currency.cpp:140-203 | defined exactly up to twice the effective median; the emission is the reward minus the fee modulo 2^64; its size is that of `RewardExactly` |
| Reward.RewardExactly | lib/CryptoNoteCore/Currency.cpp:140-203 | the reward is the base reward and the fee up to the median m, and above it the base reward, and the fee if fees are penalised, times size(2m - size)/m^2 rounded down; the emission is that minus the fee |
| Reward.RewardAntitone | lib/CryptoNoteCore/Currency.cpp:140-203 | if base reward and fee fit in 64 bits together, a larger block never has a larger reward, and above the median the reward is below a positive base reward plus the fee |
| Reward.RewardRisesExactly | lib/CryptoNoteCore/Currency.cpp:140-203 | the 64-bit reward never rises with the size if and only if base reward and fee fit in 64 bits together, or fees are penalised and the scaled sum one byte below twice the median does not fit, or the median is 0 |
| Reward.WrappedRewardRises | lib/CryptoNoteCore/Currency.cpp:192-199 | a base reward of 2^63 and a fee of 2^63 + 1: the 64-bit reward is 1 for a small block and 2^63 + 1 for a large one |
| Reward.PenalizedAmount | lib/CryptoNoteCore/CryptoNoteBasicImpl.cpp:33-75 | the penalty never raises the amount |
| Reward.PenaltyBelowAmount | lib/CryptoNoteCore/CryptoNoteBasicImpl.cpp:33-75 | above the median the penalised amount is strictly below a positive amount |
| MinerTemplate.DecomposeAmountIntoDigits | lib/CryptoNoteCore/CryptoNoteFormatUtils.h:170-205 | the pieces add up to the amount; the dust is the tail of digits that ends where the next digit would pass the threshold, and comes first; the others are exactly the remaining digits that are not zero, in their places, lowest first |
| MinerTemplate.LongestTail | lib/CryptoNoteCore/CryptoNoteFormatUtils.h:170-205 | no longer tail of digits is within the threshold |
| MinerTemplate.KeepsChunk | lib/CryptoNoteCore/CryptoNoteFormatUtils.h:184-200 | after the first piece above the threshold no later digit is taken as dust |
| MinerTemplate.MergeAmounts | lib/CryptoNoteCore/Currency.cpp:341-344 | at most the allowed number of amounts remain, with the same total and the same leading amounts |
| MinerTemplate.ConstructMinerTx | lib/CryptoNoteCore/Currency.cpp:264-437 | if keys can be derived it succeeds exactly when the reward is defined, an output is allowed and the governance share is consistent with it; the outputs add up to exactly the reward, the share comes last, the others are the digits of the rest in order with the surplus merged into the last, each with its own key; the coinbase passes the prevalidation |
| MinerTemplate.FirstShareExample | lib/CryptoNoteCore/Currency.cpp:264-437 | the first block with a reward of 10 and a share of 1 does not meet the condition |
| MinerTemplate.SameReward | lib/CryptoNoteCore/Blockchain.cpp:2575-2593 | half the stored limit leads the miner to the validator's reward for every size |
| MinerTemplate.FitSize | lib/CryptoNoteCore/Core.cpp:792-842 | a coinbase is taken only at exactly the size its reward was computed for, with nothing but padding added |
| MinerTemplate.TemplateFits | lib/CryptoNoteCore/Core.cpp:831-842 | a coinbase of exactly that size passes the validator |
| MinerTemplate.GetBlockTemplate | lib/CryptoNoteCore/Core.cpp:717-848 | any template returned pays exactly the reward for the size that includes its coinbase; right after an accepted push it passes prevalidation and the validator's reward check |
| MinerTemplate.TemplateAccepted | lib/CryptoNoteCore/Blockchain.cpp:2662-2865 | such a template is accepted by pushBlock if it passes the remaining checks |
| WideArith.Mul128 | lib/Common/int-util.h:70-96 | the two words are exactly the product |
| WideArith.DivWithRemainder | lib/Common/int-util.h:98-105 | exact division of a remainder and one word |
| WideArith.Div128By32 | lib/Common/int-util.h:107-127 | exact 128 by 32 bit division with remainder |
| WideArith.TwoDivisions | lib/CryptoNoteCore/CryptoNoteBasicImpl.cpp:58-69 | two chained divisions by m are one division by m squared |
| WideArith.GetPenalizedAmount | lib/CryptoNoteCore/CryptoNoteBasicImpl.cpp:33-75 | for 32-bit sizes the result is the amount times c(2m-c)/m^2 rounded down, without wrap-around, and both closing assertions hold |
| Reward.PenaltyAntitone | lib/CryptoNoteCore/CryptoNoteBasicImpl.cpp:33-75 | a larger block is never paid more |
| WideArith.CheckHash | lib/CryptoNoteCore/Difficulty.cpp:59-76 | true exactly if the 256-bit hash times the difficulty is below 2^256 |
| WideArith.TopDecides | lib/CryptoNoteCore/Difficulty.cpp:63-66 | the early exit on the highest word is right |
| WideArith.HarderIsStricter | lib/CryptoNoteCore/Difficulty.cpp:59-76 | a hash good for a difficulty is good for every smaller one |
| FileLayout.OpenOfBytes | lib/Common/FileMappedVector.h:976-997 | opening the file of a vector gives back prefix, capacity, elements and suffix, whatever the unused slots hold |
| FileLayout.BytesOfOpen | lib/Common/FileMappedVector.h:976-997 | conversely every file that opens is the file of the vector it opens to |
| FileMappedVectors.SlotIsSlack | lib/Common/FileMappedVector.h:754-767 | writing the first unused slot is invisible to opening |
| FileMappedVectors.SizeTakesSlot | lib/Common/FileMappedVector.h:754-767 | writing the size word makes exactly the next slot visible |
| FileMappedVectors.SizeDropsSlot | lib/Common/FileMappedVector.h:745-751 | writing the smaller size word makes exactly the last slot unused |
| FileMappedVectors.FileMappedVector.AtomicUpdate0 | lib/Common/FileMappedVector.h:926-974 | succeeds exactly if no step before or at the two renames fails; after a crash at any point, or a failure at any step, exactly the old or exactly the new file is found, the new one only on success; nothing is left behind but a backup or temporary file whose removal failed |
| FileMappedVectors.FileMappedVector.Prepare | lib/Common/FileMappedVector.h:940-953 | everything before the first rename leaves the vector's own file alone; on failure only a temporary file that could not be removed stays |
| FileMappedVectors.FileMappedVector.SwapFiles | lib/Common/FileMappedVector.h:956-973 | at every point of the two renames and the removal, and whichever of them fails, exactly the old or the new file is found; only a failed restoring rename leaves the vector on its backup |
| FileMappedVectors.FileMappedVector.AtomicUpdate | lib/Common/FileMappedVector.h:893-924 | for every crash point opening recovers the old vector or the vector with the new elements and the resized prefix and suffix |
| FileMappedVectors.FileMappedVector.Erase | lib/Common/FileMappedVector.h:683-701 | recovers the old vector or the one without the range, for every crash point |
| FileMappedVectors.GrowthIsGeometric | lib/Common/FileMappedVector.h:1081-1083 | after growing k times the capacity plus one is at least (3/2)^k times what it was |
| FileMappedVectors.FileMappedVector.Insert | lib/Common/FileMappedVector.h:712-742 | recovers the old vector or the one with the values inserted and the grown capacity, for every crash point |
| FileMappedVectors.FileMappedVector.Reserve | lib/Common/FileMappedVector.h:506-516 | recovers the same contents, with the old or the new capacity, for every crash point |
| FileMappedVectors.FileMappedVector.ResizePrefix | lib/Common/FileMappedVector.h:822-832 | the file found opens, with the old or the new prefix size, to the old vector or the one with the resized prefix |
| FileMappedVectors.FileMappedVector.WriteSlot | lib/Common/FileMappedVector.h:762-763 | a slot holds the old, half-written or new bytes until it is flushed, and nothing else changes |
| FileMappedVectors.FileMappedVector.AppendElement | lib/Common/FileMappedVector.h:762-766 | recovers the old vector or the one with exactly the new element, for every crash point |
| FileMappedVectors.FileMappedVector.PushBack | lib/Common/FileMappedVector.h:753-767 | recovers the old contents or the contents with exactly the new element at the end, for every crash point |
| FileMappedVectors.FileMappedVector.PopBack | lib/Common/FileMappedVector.h:744-751 | recovers the old vector or the one without its last element, for every crash point |
| FileMappedVectors.FileMappedVector.Open | lib/Common/FileMappedVector.h:415-453 | what is found does not depend on a crash while opening; the vector opened is the one found; creating never replaces a file; creating has three durable steps, and after none of them no file is found, after one a file that does not open, after two one without room and with a suffix of zeros, after all three the created vector |
| FileMappedVectors.CreateSteps | lib/Common/FileMappedVector.h:1000-1012 | of the three different states of a file being created the first does not open, the second opens without room and with a suffix, the third is the created vector |
| JsonRoundTrip.PrintThenParse | lib/Common/JsonValue.cpp:676-807 | printing and parsing again gives the value back and takes exactly the printed text if and only if all its strings and keys are escape-closed |
| JsonGrammar.ParseExactly | lib/Common/JsonValue.cpp:784-1019 | parsing gives a value and a rest if and only if the text starts with a document for that value, with any spaces before every token but inside none, and the rest follows |
| JsonGrammar.DocParses | lib/Common/JsonValue.cpp:784-1019 | every such document, however it is spaced, is read as its value |
| JsonGrammar.ParsedDoc | lib/Common/JsonValue.cpp:784-1019 | whatever is parsed was such a document |
| JsonGrammar.SpacesBefore | lib/Common/JsonValue.cpp:748-757 | spaces before a value do not matter |
| JsonGrammar.SpacesAre | lib/Common/JsonValue.cpp:748-757 | the spaces are blank, tab, line feed, vertical tab, form feed and carriage return |
| JsonGrammar.OtherStartRefused | lib/Common/JsonValue.cpp:784-807 | any other first character that no value starts with is refused |
| JsonGrammar.PrintsTight | lib/Common/JsonValue.cpp:676-734 | the printed text is the document without spaces |
| JsonGrammar.LessExactly | lib/Common/JsonValue.cpp:976-1019 | keys are in the order of their first different character, a proper prefix first |
| JsonGrammar.InsertExactly | lib/Common/JsonValue.cpp:996-996 | after an insertion the object has the new member and the old ones of other keys, and no others |
| JsonGrammar.DigitsAppend | lib/Common/JsonValue.cpp:904-974 | each further digit of a number counts ten times what stands before it |
| JsonRoundTrip.TokenRoundTrip | lib/Common/JsonValue.cpp:759-780 | an escape-closed string is read back whole |
| JsonRoundTrip.TokensAreClosed | lib/Common/JsonValue.cpp:759-780 | whatever is read as a string is escape-closed |
| JsonRoundTrip.NumberRoundTrip | lib/Common/JsonValue.cpp:904-974 | every 64-bit integer is read back |
| JsonRoundTrip.ItemsRoundTrip | lib/Common/JsonValue.cpp:826-856 | the items of an array are read back in order |
| JsonRoundTrip.MembersRoundTrip | lib/Common/JsonValue.cpp:976-1019 | the members of an object are read back in key order |
| JsonRoundTrip.ParsedIsGood | lib/Common/JsonValue.cpp:784-807 | whatever is parsed is well formed and escape-closed |
| JsonRoundTrip.InsertKeeps | lib/Common/JsonValue.cpp:996-996 | inserting or overwriting a member keeps the keys in order |
| JsonRoundTrip.BareQuoteCutsString | lib/Common/JsonValue.cpp:728-730 | a string with a bare quote comes back cut at the quote, the rest left over |
| JsonWriters.Writer.Write | lib/Common/JsonValue.cpp:676-734 | the recursive printer appends exactly the printed value |
| JsonWriters.Writer.WriteItems | lib/Common/JsonValue.cpp:679-690 | the array loop appends the items with commas between them |
| JsonWriters.Writer.WriteMembers | lib/Common/JsonValue.cpp:701-716 | the object loop appends the members in key order |
| JsonReaders.Reader.ReadChar | lib/Common/JsonValue.cpp:738-746 | takes one character or throws at the end |
| JsonReaders.Reader.ReadNonWsChar | lib/Common/JsonValue.cpp:748-757 | skips spaces, which are exactly the six characters of `SpacesAre`, and takes one character |
| JsonReaders.Reader.ReadStringToken | lib/Common/JsonValue.cpp:759-780 | reads the specified token and leaves the specified rest |
| JsonReaders.Reader.ReadNumber | lib/Common/JsonValue.cpp:904-974 | reads the specified integer, with the leading-zero rule, and leaves the specified rest |
| JsonReaders.Reader.ReadValue | lib/Common/JsonValue.cpp:784-807 | the recursive reader computes the parse of the rest of the stream |
| JsonReaders.Reader.ReadArray | lib/Common/JsonValue.cpp:826-856 | the array loop computes the specified parse |
| JsonReaders.Reader.ReadObject | lib/Common/JsonValue.cpp:976-1019 | the object loop computes the specified parse |
| JsonReaders.Reader.ReadMember | lib/Common/JsonValue.cpp:984-996 | a quoted name, a colon and a value |
| JsonReaders.Reader.ReadWord | lib/Common/JsonValue.cpp:858-902 | the three literals |
| Base58.Base58RoundTrip | lib/Common/Base58.cpp:198-255 | decoding an encoding gives back the data, for all byte strings |
| Base58.Base58Canonical | lib/Common/Base58.cpp:222-255 | a string is accepted only if it is the encoding of what it decodes to |
| Base58.BlockRoundTrip | lib/Common/Base58.cpp:145-194 | the same for one block |
| Base58.BlockCanonical | lib/Common/Base58.cpp:159-194 | the same for one block |
| Base58.RoomFor | lib/Common/Base58.cpp:35-37 | each encoded block size is the smallest with room for every block of its decoded size |
| Base58.AlphabetExactly | lib/Common/Base58.cpp:33-33 | the alphabet is the digits and letters in ascending order without 0, O, I and l |
| Base58.SameNumber | lib/Common/Base58.cpp:145-157 | a block and its letters are the same number in base 256 and base 58, highest place first |
| Base58.BigEndian | lib/Common/Base58.cpp:92-134 | the big-endian value of a block, below 2^64 |
| Base58.EncodeBlock | lib/Common/Base58.cpp:145-157 | fills exactly its stretch of the buffer with the block's numeral |
| Base58.DecodeBlock | lib/Common/Base58.cpp:159-194 | the 64-bit overflow tests refuse exactly the values that do not fit the block |
| Base58.OverflowTest | lib/Common/Base58.cpp:176-180 | a wrapped sum or a non-zero high word is exactly a total of 2^64 or more |
| Base58.Encode | lib/Common/Base58.cpp:198-220 | the buffer filled block by block is the encoding |
| Base58.Decode | lib/Common/Base58.cpp:222-255 | accepts exactly what the specification accepts and returns its data |
| Base58.DecLength | lib/Common/Base58.cpp:230-235 | a length that no data encodes to is refused |
| Base58.LetterDigit | lib/Common/Base58.cpp:33-63 | the reverse alphabet inverts the alphabet |
| Base58.DigitLetter | lib/Common/Base58.cpp:39-63 | the alphabet inverts the reverse alphabet |
| Base58.AddrRoundTrip | lib/Common/Base58.cpp:257-299 | every 64-bit tag and every data come back from the address made of them |
| Base58.AddrExactly | lib/Common/Base58.cpp:270-299 | an address is accepted if and only if it is the Base58 of bytes that start with a 64-bit number and of the first four bytes of their hash behind them |
| Base58.WrongChecksumRefused | lib/Common/Base58.cpp:281-289 | bytes with any other four bytes behind them are refused |
| Base58.AddrCanonical | lib/Common/Base58.cpp:270-299 | an accepted address is the one its tag and data encode to if and only if some payload byte ends a number |
| Base58.CutOffTagAccepted | lib/Common/Base58.cpp:291-296 | an accepted address that its tag and data do not encode to, for every hash function |
| Varints.VarintRoundTrip | lib/Common/Varint.h:29-77 | every value that fits is read back and exactly its bytes are taken |
| Varints.VarintIsGroups | lib/Common/Varint.h:29-38 | an encoding is the seven-bit groups of its value, lowest first, as few as there can be |
| Varints.RefusedExactly | lib/Common/Varint.h:50-77 | a reading overflows exactly if the byte with the highest bits holds more than is left of them, and is non-canonical exactly if a zero byte follows bytes that announced another one within the bits |
| Varints.VarintCanonical | lib/Common/Varint.h:50-77 | whatever is read to a last byte is the canonical encoding of a value that fits |
| Varints.EndedIsAllContinued | lib/Common/Varint.h:60-62 | the input ends inside a number only if every byte of it announces another one |
| Varints.WriteVarint | lib/Common/Varint.h:29-38 | writes the canonical encoding |
| Varints.ReadVarint | lib/Common/Varint.h:50-77 | returns count and value of the specified reading, -1 for overflow and -2 for a non-canonical form |
| BlockingQueues.StepKeeps | lib/Common/BlockingQueue.h:37-93 | every step of every thread, spurious wake-ups included, keeps the queue and wake-up invariant |
| BlockingQueues.FirstInFirstOut | lib/Common/BlockingQueue.h:37-79 | in every interleaving of the turns that `PushEffect` and its companions describe the popped values are a prefix of the pushed ones, the queue is the rest, and the capacity is never exceeded |
| BlockingQueues.NothingLost | lib/Common/BlockingQueue.h:37-93 | in every interleaving each value given to push came out, is in the queue, is carried by a thread inside push, or was refused by a closed queue |
| BlockingQueues.PushEffect | lib/Common/BlockingQueue.h:37-54 | a push appends and wakes one sleeping pop if the queue is open and has room, sleeps if it is open and full, and does nothing if it is closed |
| BlockingQueues.PopEffect | lib/Common/BlockingQueue.h:56-79 | a pop takes the first value and wakes the picked sleeper, or everyone if that drains a closed queue; on an empty queue it sleeps, or does nothing if it is closed |
| BlockingQueues.ResumeEffect | lib/Common/BlockingQueue.h:37-93 | a woken thread does what a call would do |
| BlockingQueues.CloseEffect | lib/Common/BlockingQueue.h:81-93 | close wakes everyone and sleeps only if asked to wait for values that are left |
| BlockingQueues.SpuriousPushEffect | lib/Common/BlockingQueue.h:41-43 | a spurious wake-up moves one thread from asleep to woken |
| BlockingQueues.TurnsAreFree | lib/Common/BlockingQueue.h:37-93 | nothing keeps a call from its first turn or a woken thread from its next |
| BlockingQueues.NoLostWakeup | lib/Common/BlockingQueue.h:37-93 | in every interleaving, while a thread sleeps in pop every queued value has a woken popper, and while one sleeps in push every free slot has a woken pusher; so a thread is left asleep, with no woken thread of its kind, only while what it waits for is false; a closed and drained queue leaves nobody asleep |
| BlockingQueues.NoDeadlock | lib/Common/BlockingQueue.h:37-93 | pushers and poppers are never asleep together with nobody woken, and a waiting close() is never asleep together with either |
| BlockingQueues.ClosedIsFinal | lib/Common/BlockingQueue.h:81-93 | a closed queue accepts nothing more and only pops change it |
| BlockIds.SparseShape | lib/CryptoNoteCore/BlockIndex.cpp:62-80 | a sparse chain starts at the tip, ends at the genesis block and descends strictly |
| BlockIds.MainSteps | lib/CryptoNoteCore/BlockIndex.cpp:62-80 | below the tip the distances double until the genesis block, so a sparse chain over heights up to n has at most 2 + log2(n + 1) entries |
| BlockIds.SparseIsShort | lib/CryptoNoteCore/Blockchain.cpp:755-788 | with n alternative blocks above a fork at height f it has at most 3 + log2(n + 1) + log2(f + 1) entries |
| BlockIds.DoublingExactly | lib/CryptoNoteCore/BlockIndex.cpp:68-73 | the k-th distance is the first one doubled k times, and the list stops when the next would leave the chain |
| BlockIds.SparseClose | lib/CryptoNoteCore/BlockIndex.cpp:62-80 | for every fork height k some listed height m has m <= k and k - m < tip + 1 - k |
| BlockIds.SupplementIsClose | lib/CryptoNoteCore/Blockchain.cpp:1994-2004 | a peer that shares the chain exactly up to height k answers a sparse chain with a common block m <= k with k - m < tip + 1 - k |
| BlockIds.BlockIndex.Push | lib/CryptoNoteCore/BlockIndex.h:51-55 | appends exactly if the id is new |
| BlockIds.BlockIndex.Pop | lib/CryptoNoteCore/BlockIndex.h:45-48 | removes the last id |
| BlockIds.BlockIndex.GetBlockHeight | lib/CryptoNoteCore/BlockIndex.h:62-72 | the position of the id, which is the only one, or none |
| BlockIds.BlockIndex.GetBlockIds | lib/CryptoNoteCore/BlockIndex.cpp:32-49 | the stretch of ids from the start, at most the given number |
| BlockIds.BlockIndex.FindSupplement | lib/CryptoNoteCore/BlockIndex.cpp:51-60 | the height of the first listed id that is known |
| BlockIds.BlockIndex.BuildSparseChain | lib/CryptoNoteCore/BlockIndex.cpp:62-80 | the ids at exactly the sparse heights below the start block |
| BlockIds.BlockIndex.DoBuildSparseChain | lib/CryptoNoteCore/Blockchain.cpp:755-788 | the ids at exactly the sparse heights of the chain that ends in the start block, alternative blocks included |
| Shuffle.SparseStep | lib/Common/ShuffleGenerator.h:57-69 | overwriting one entry of the sparse map is one Fisher-Yates step on the array it stands for |
| Shuffle.RemovedContents | lib/Common/ShuffleGenerator.h:57-69 | the step removes exactly the emitted value from the live values |
| Shuffle.ShuffleGenerator.Next | lib/Common/ShuffleGenerator.h:46-72 | emits the drawn live value; emitted and live values together stay exactly 0..N-1; throws exactly at the end |
| Shuffle.ShuffleGenerator.Reset | lib/Common/ShuffleGenerator.h:40-44 | starts over with all values live |
| Shuffle.ShuffleAll | lib/Common/ShuffleGenerator.h:28-72 | whatever is drawn, N calls emit every value of 0..N-1 exactly once |

## Left out

- Cryptography: signatures, key derivation, tree hash and slow hash appear only as functions and guards that are arguments.
- Floating point: the base reward formula, the governance percentage, the difficulty formulas and the minimal fee are arguments.
- JsonReaders.Reader.ReadNumber: a number with a decimal point ends the parse with the outcome `RealNumber` instead of its value, because reals print and parse through floating point.
- JsonReaders.Reader.ReadValue: ends in the same outcome where the value holds such a number; printing reals is not modelled.
- The transaction pool's own rules (fees, expiry, conflicts); `fill_block_template` is represented by the list it returns.
- Widths of the 16-bit and 32-bit position counters in `TransactionIndex` and of the block height: positions are unbounded naturals.
- The call that re-registers the disconnected blocks as alternatives after a switch (lib/CryptoNoteCore/Blockchain.cpp:1262-1273): it does what an `AddBlock` command of each old block after the switch does, so the theorems about runs cover it.
- Messages to observers, upgrade detectors and the orphan index.
- Heights of alternative blocks along a branch and connectivity of all stored alternatives: erasing a failed branch may leave dangling ones, so nothing is claimed about them.
- Mutexes around the ledger: each entry point is one atomic step.
- Order of equal keys in the multimaps of the explorer indexes, and the `find` queries on them.
- Reading and writing of the cache file and of checkpoints.
- FileMappedVectors.FileMappedVector.PushBack: models automatic flushing only; without it the order of writes is not fixed.
- Vectors whose capacity times element size exceeds 64 bits, and the byte order of the two words of a vector file.
- shrink_to_fit, resizeSuffix and clear of the file vector: they add nothing over reserve, resizePrefix and pop_back.
- BlockchainStore.Blockchain.RegisterAlternative: the work of a branch is the sum of the difficulties its blocks were given when they were stored, since the difficulty of a block as an alternative and on the main chain are separate functions and the former depends on what is stored at that time.
- LedgerWork.WorkDecides: says this of candidate branches of states that clean commands reach, where every stored alternative carries its work (`RunEarns`).
- LedgerWork.RunEarns: asks of the commands what runs ask.
- LedgerAdmission.OnlyCoinbasesCreate: asks of the commands what runs ask.
- LedgerBranches.SwitchExactly: asks of the branch what the switch asks.
- BlockchainStore.Blockchain.AddToPool: the size, fee and mixin tests before the semantic check and the pool's own rules are not part of it.
- BlockchainStore.Blockchain.Reset: the closing `addNewBlock` of the genesis block is not part of it, since that call needs the consistency which the clearing does not always leave.
- LedgerSafety.NoDoubleSpendOutside: what it says about outputs consumed inside the zone is for chains that can be rebuilt; in others marking an output reads past the end of a vector.
- BlockchainStore.Blockchain.PushBlockWith: asks that a block inside the checkpoint zone lists new transactions, which taking them from the pool ensures, and names stored multisignature outputs, which the code does not look at before it reads them.
- BlockchainStore.Blockchain.PushBlock: asks the latter of the block it pushes.
- BlockchainStore.Blockchain.SwitchToAlternative: asks that no block of the branch takes the size exit or throws, since the rollback would then start from inconsistent indexes, that its zone blocks name stored outputs, and that what is taken away consumed nothing that stays.
- BlockchainStore.Blockchain.Reorganise: asks the same of the branch, and a split height of at least 1, as the switch has checked by then.
- BlockchainStore.Blockchain.DisconnectTo: asks a split height of at least 1, as the switch has checked by then.
- BlockchainStore.Blockchain.RollbackBlockchainSwitching: asks a height of at least 1, without which its first loop never ends, and that the failed blocks consumed nothing that stays.
- BlockchainStore.Blockchain.ConnectBranch: asks of the branch what the switch asks.
- BlockchainStore.Blockchain.HandleAlternativeBlock: asks the same of the branch it switches to.
- BlockchainStore.Blockchain.AddNewBlock: asks the same of the block that extends the tip, or of the branch it switches to.
- BlockchainStore.Blockchain.Step: asks the same of what the command pushes and undoes.
- BlockchainStore.Blockchain.Execute: asks the same of every command of the run.
- LedgerRun.MovedKeeps: asks the same of the branch.
- LedgerRun.ConnectOk: asks the same of the branch.
- LedgerRun.ExecKeeps: asks the same of the command.
- LedgerRun.RunKeeps: asks the same of every command of the run.
- LedgerRun.ConfirmedSurvive: asks the same of every command of the run.
- LedgerRun.RunIsSafe: asks the same of every command of the run.
- Shuffle.ShuffleAll: the distribution of the draws is not modelled, the result holds for every sequence of draws.
