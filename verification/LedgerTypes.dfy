/** Values of the ledger: transactions, blocks, and the records that the node keeps about them. */
module LedgerTypes {

  const TWO32: int := 0x1_0000_0000
  const TWO64: int := 0x1_0000_0000_0000_0000

  /** An unsigned 64-bit value; every wrap-around is written out with `Wrap64`. */
  type uint64 = x: int | 0 <= x < TWO64

  function Wrap64(x: int): (r: uint64) {
    x % TWO64
  }

  lemma {:induction false} WrapShift(x: int, k: int)
    ensures Wrap64(x + k * TWO64) == Wrap64(x)
  {
    var q := x / TWO64;
    assert x + k * TWO64 == (q + k) * TWO64 + x % TWO64;
  }

  /** Wrapping an operand of a sum early does not change the wrapped sum. */
  lemma {:induction false} WrapAdd(x: int, y: int)
    ensures Wrap64(Wrap64(x) + y) == Wrap64(x + y)
  {
    assert x + y == Wrap64(x) + y + (x / TWO64) * TWO64;
    WrapShift(Wrap64(x) + y, x / TWO64);
  }

  function Total(s: seq<nat>): (r: nat) {
    if s == [] then 0 else Total(s[..|s| - 1]) + s[|s| - 1]
  }

  datatype Option<+T> = None | Some(value: T)

  datatype Input =
    | BaseInput(blockIndex: nat)
    | KeyInput(amount: uint64, outputIndexes: seq<nat>, keyImage: nat)
    | MultisignatureInput(amount: uint64, signatureCount: nat, outputIndex: nat)

  datatype Target =
    | KeyOutput(key: nat)
    | MultisignatureOutput(keys: seq<nat>, requiredSignatureCount: nat)

  datatype Output = Output(amount: uint64, target: Target)

  datatype Transaction = Transaction(
    inputs: seq<Input>,
    outputs: seq<Output>,
    unlockTime: nat,
    extra: seq<nat>,
    signatures: seq<seq<nat>>)

  /** Hashes are symbolic: a hash is the hashed object under a tag, hence injective by construction. */
  datatype Hash =
    | NullHash
    | TxHash(tx: Transaction)
    | BlockHash(bl: Block)

  datatype Block = Block(
    timestamp: nat,
    nonce: nat,
    previous: Hash,
    base: Transaction,
    txHashes: seq<Hash>)

  datatype TransactionIndex = TransactionIndex(block: nat, transaction: nat)

  datatype OutputRef = OutputRef(txIndex: TransactionIndex, output: nat)

  datatype MsigUsage = MsigUsage(txIndex: TransactionIndex, output: nat, isUsed: bool)

  datatype TransactionEntry = TransactionEntry(tx: Transaction, globalIndexes: seq<nat>)

  datatype BlockEntry = BlockEntry(
    bl: Block,
    height: nat,
    cumulativeSize: nat,
    cumulativeDifficulty: nat,
    generatedCoins: uint64,
    transactions: seq<TransactionEntry>)

  /** An entry of `m_alternative_chains`. */
  datatype AltEntry = AltEntry(bl: Block, height: nat, cumulativeDifficulty: nat)

  type OutputMap = map<uint64, seq<OutputRef>>
  type MsigMap = map<uint64, seq<MsigUsage>>

  /** The per-amount output vectors: `m_outputs` and `m_multisignatureOutputs`. */
  datatype OutputTables = OutputTables(keys: OutputMap, msigs: MsigMap)

  /** The structures that `rebuildCache` computes from the block list. */
  datatype Cache = Cache(
    blockIds: seq<Hash>,
    txMap: map<Hash, TransactionIndex>,
    spent: set<nat>,
    tables: OutputTables)

  const EMPTY_CACHE: Cache := Cache([], map[], {}, OutputTables(map[], map[]))

  // ---- What a transaction consumes ----

  function KeyImages(inputs: seq<Input>): set<nat> {
    set i | 0 <= i < |inputs| && inputs[i].KeyInput? :: inputs[i].keyImage
  }

  function MsigRefs(inputs: seq<Input>): set<(uint64, nat)> {
    set i | 0 <= i < |inputs| && inputs[i].MultisignatureInput? :: (inputs[i].amount, inputs[i].outputIndex)
  }

  ghost predicate DistinctImages(inputs: seq<Input>) {
    forall i, j :: 0 <= i < j < |inputs| && inputs[i].KeyInput? && inputs[j].KeyInput? ==>
      inputs[i].keyImage != inputs[j].keyImage
  }

  ghost predicate DistinctMsigs(inputs: seq<Input>) {
    forall i, j :: 0 <= i < j < |inputs| && inputs[i].MultisignatureInput? && inputs[j].MultisignatureInput? ==>
      (inputs[i].amount, inputs[i].outputIndex) != (inputs[j].amount, inputs[j].outputIndex)
  }

  /** The part of `check_tx_semantic` that the ledger relies on; transactions enter the pool only with it. */
  ghost predicate Semantic(tx: Transaction) {
    && tx.inputs != [] && DistinctImages(tx.inputs) && DistinctMsigs(tx.inputs)
    && forall i :: 0 <= i < |tx.inputs| ==> !tx.inputs[i].BaseInput?
  }

  function Txs(entries: seq<TransactionEntry>): (txs: seq<Transaction>)
    ensures |txs| == |entries|
    ensures forall i :: 0 <= i < |txs| ==> txs[i] == entries[i].tx
  {
    seq(|entries|, i requires 0 <= i < |entries| => entries[i].tx)
  }
}
