/**
 * How a miner's coinbase is built and sized, and why the validator accepts it
 * (`decompose_amount_into_digits`, `Currency::constructMinerTx`, `core::get_block_template`).
 */
module MinerTemplate {
  import opened LedgerTypes
  import opened LedgerCache
  import opened LedgerChain
  import opened Reward
  import opened Radix

  lemma {:induction false} TotalAppend(s: seq<nat>, x: nat)
    ensures Total(s + [x]) == Total(s) + x
  {
    assert (s + [x])[..|s|] == s;
  }

  // ---- Decomposition into digits ----

  ghost predicate IsDigitAt(x: nat, d: nat, k: nat) {
    1 <= d <= 9 && x == d * Pow(10, k)
  }

  /** One decimal digit in its place. */
  ghost predicate DigitInPlace(x: nat) {
    exists d: nat, k: nat :: IsDigitAt(x, d, k)
  }

  ghost predicate AllDigits(s: seq<nat>) {
    forall i :: 0 <= i < |s| ==> DigitInPlace(s[i])
  }

  /** What is left of an amount after its `k` lowest digits. */
  ghost function Remaining(left: nat, k: nat): (r: nat) {
    left * Pow(10, k)
  }

  ghost function Chunk(left: nat, k: nat): (r: nat) {
    left % 10 * Pow(10, k)
  }

  /** The lowest digit of what is left, in its place. */
  lemma {:induction false} DigitStep(left: nat, k: nat)
    ensures Chunk(left, k) + Remaining(left / 10, k + 1) == Remaining(left, k)
    ensures Chunk(left, k) < Pow(10, k + 1) && Pow(10, k) <= Pow(10, k + 1)
    ensures Chunk(left, k) != 0 ==> Pow(10, k) <= Chunk(left, k) && DigitInPlace(Chunk(left, k))
    ensures left / 10 > 0 ==> Pow(10, k) * 10 <= Remaining(left, k)
  {
    var p, q, d := Pow(10, k), left / 10, left % 10;
    assert left == 10 * q + d;
    Spread(q, d, p);
    Multiples(p, d);
    Multiples(10 * p, q);
    if d > 0 {
      assert IsDigitAt(d * p, d, k);
    }
  }

  lemma {:induction false} Spread(q: nat, d: nat, p: nat)
    ensures (10 * q + d) * p == d * p + q * (10 * p)
    ensures d < 10 && p > 0 ==> d * p < 10 * p
    ensures (10 * q + d) * p == p * (10 * q + d) && d * p == p * d && q * (10 * p) == 10 * p * q
  {
  }

  /** The state of the decomposition loop after `k` digits; `pending` is the dust gathered so far. */
  ghost predicate Splitting(amount: nat, threshold: nat, left: nat, k: nat, pending: nat, handled: bool,
                            chunks: seq<nat>, outs: seq<nat>) {
    && Remaining(left, k) + Total(outs) + (if handled then 0 else pending) == amount
    && pending <= threshold && AllDigits(chunks)
    && outs == (if handled then [pending] else []) + chunks
    && (handled ==> pending != 0)
    && (chunks != [] ==> (handled || pending == 0) && threshold < pending + Pow(10, k))
    && (chunks == [] ==> !handled)
  }

  lemma {:induction false} KeepsDust(amount: nat, threshold: nat, left: nat, k: nat, pending: nat, handled: bool,
                                     chunks: seq<nat>, outs: seq<nat>)
    requires Splitting(amount, threshold, left, k, pending, handled, chunks, outs) && left > 0
    requires pending + Chunk(left, k) <= threshold
    ensures Splitting(amount, threshold, left / 10, k + 1, pending + Chunk(left, k), handled, chunks, outs)
  {
    DigitStep(left, k);
    hide Pow, DigitInPlace, Remaining, Chunk;
  }

  lemma {:induction false} KeepsChunk(amount: nat, threshold: nat, left: nat, k: nat, pending: nat, handled: bool,
                                      chunks: seq<nat>, outs: seq<nat>)
    requires Splitting(amount, threshold, left, k, pending, handled, chunks, outs) && left > 0
    requires pending + Chunk(left, k) > threshold
    ensures var chunk := Chunk(left, k);
            && chunk != 0
            && Splitting(amount, threshold, left / 10, k + 1, pending, handled || pending != 0, chunks + [chunk],
                         (if !handled && pending != 0 then outs + [pending] else outs) + [chunk])
  {
    DigitStep(left, k);
    var chunk := Chunk(left, k);
    hide Pow, DigitInPlace, Remaining, Chunk;
    TotalAppend(outs, pending);
    TotalAppend(outs, chunk);
    TotalAppend(outs + [pending], chunk);
    hide Total;
    assert AllDigits(chunks + [chunk]);
  }

  /** `tail` is what the `t` lowest digits of the amount are worth, and `up` is the number above them. */
  ghost predicate Tail(amount: nat, t: nat, tail: nat, up: nat) {
    tail < Pow(10, t) && amount == tail + Remaining(up, t)
  }

  /** The digits of `up` that are not zero, each in its place above `t` others, lowest first. */
  ghost function Pieces(up: nat, t: nat): (r: seq<nat>) {
    if up == 0 then []
    else if up % 10 == 0 then Pieces(up / 10, t + 1)
    else [Chunk(up, t)] + Pieces(up / 10, t + 1)
  }

  /** The dust is a tail, it ends where the next digit would pass the threshold, and the chunks are the rest. */
  ghost predicate Cut(amount: nat, threshold: nat, t: nat, up: nat, dust: nat, chunks: seq<nat>) {
    && Tail(amount, t, dust, up) && chunks == Pieces(up, t)
    && (up == 0 || dust + Chunk(up, t) > threshold)
  }

  /** The dust is the longest tail of digits within the threshold, and the chunks are the other digits in order. */
  ghost predicate CutAtThreshold(amount: nat, threshold: nat, dust: nat, chunks: seq<nat>) {
    exists t: nat, up: nat :: Cut(amount, threshold, t, up, dust, chunks)
  }

  /** The cut so far: at `k` while every digit went to the dust, and below the first digit that did not. */
  ghost predicate Cutting(amount: nat, threshold: nat, t: nat, up: nat, left: nat, k: nat, pending: nat,
                          chunks: seq<nat>) {
    && Tail(amount, t, pending, up) && Pieces(up, t) == chunks + Pieces(left, k)
    && (if chunks == [] then t == k && up == left else up > 0 && pending + Chunk(up, t) > threshold)
  }

  lemma {:induction false} StartCutting(amount: nat, threshold: nat)
    ensures Cutting(amount, threshold, 0, amount, amount, 0, 0, [])
  {
    assert Remaining(amount, 0) == amount;
    assert [] + Pieces(amount, 0) == Pieces(amount, 0);
  }

  lemma {:induction false} CutsDust(amount: nat, threshold: nat, t: nat, up: nat, left: nat, k: nat, pending: nat,
                                    chunks: seq<nat>)
    returns (t': nat, up': nat)
    requires Cutting(amount, threshold, t, up, left, k, pending, chunks) && left > 0
    requires pending + Chunk(left, k) <= threshold && (chunks != [] ==> threshold < pending + Pow(10, k))
    ensures Cutting(amount, threshold, t', up', left / 10, k + 1, pending + Chunk(left, k), chunks)
  {
    DigitStep(left, k);
    if chunks == [] {
      t', up' := k + 1, left / 10;
      TailStep(amount, k, pending, left);
      hide Pow, Remaining, Chunk, Pieces, Tail;
      assert [] + Pieces(up', t') == Pieces(up', t');
    } else {
      t', up' := t, up;
      assert Chunk(left, k) == 0;
      ZeroDigit(left, k);
      hide Pow, Remaining, Chunk, Tail;
    }
  }

  lemma {:induction false} ZeroDigit(left: nat, k: nat)
    ensures Chunk(left, k) == 0 <==> left % 10 == 0
  {
    var d, p := left % 10, Pow(10, k);
    hide Pow;
    Multiples(p, d);
  }

  lemma {:induction false} TailStep(amount: nat, k: nat, tail: nat, left: nat)
    requires Tail(amount, k, tail, left)
    ensures Tail(amount, k + 1, tail + Chunk(left, k), left / 10)
  {
    DigitStep(left, k);
    var p, d := Pow(10, k), left % 10;
    assert Pow(10, k + 1) == 10 * p;
    DigitRoom(tail, d, p);
    hide Remaining, Pow;
  }

  lemma {:induction false} DigitRoom(tail: nat, d: nat, p: nat)
    requires tail < p && d < 10
    ensures tail + d * p < 10 * p
  {
    Multiples(p, 9 - d);
    assert d * p + (9 - d) * p == 9 * p;
  }

  lemma {:induction false} CutsChunk(amount: nat, threshold: nat, t: nat, up: nat, left: nat, k: nat, pending: nat,
                                     chunks: seq<nat>)
    requires Cutting(amount, threshold, t, up, left, k, pending, chunks) && left > 0
    requires pending <= threshold && pending + Chunk(left, k) > threshold
    ensures Cutting(amount, threshold, t, up, left / 10, k + 1, pending, chunks + [Chunk(left, k)])
  {
    ZeroDigit(left, k);
    var c, more := Chunk(left, k), Pieces(left / 10, k + 1);
    assert Pieces(left, k) == [c] + more;
    hide Pow, Remaining, Chunk, Tail, Pieces;
    assert chunks + ([c] + more) == chunks + [c] + more;
  }

  lemma {:induction false} EndCutting(amount: nat, threshold: nat, t: nat, up: nat, k: nat, pending: nat,
                                      chunks: seq<nat>)
    requires Cutting(amount, threshold, t, up, 0, k, pending, chunks)
    ensures CutAtThreshold(amount, threshold, pending, chunks)
  {
    hide Tail, Chunk;
    assert Pieces(0, k) == [];
    hide Pieces;
    assert chunks + [] == chunks;
    assert Cut(amount, threshold, t, up, pending, chunks);
  }

  /** No longer tail of the amount's digits is within the threshold. */
  lemma {:induction false} LongestTail(amount: nat, threshold: nat, dust: nat, chunks: seq<nat>, t: nat, tail: nat,
                                       up: nat)
    requires CutAtThreshold(amount, threshold, dust, chunks) && Tail(amount, t, tail, up) && tail <= threshold
    ensures tail <= dust
  {
    var s: nat, high: nat :| Cut(amount, threshold, s, high, dust, chunks);
    if high == 0 {
      assert Remaining(0, s) == 0;
    } else if t <= s {
      LongerTail(amount, t, tail, up, s, dust, high);
    } else {
      TailStep(amount, s, dust, high);
      LongerTail(amount, s + 1, dust + Chunk(high, s), high / 10, t, tail, up);
    }
  }

  lemma {:induction false} LongerTail(amount: nat, t: nat, tail: nat, up: nat, t': nat, tail': nat, up': nat)
    requires Tail(amount, t, tail, up) && Tail(amount, t', tail', up') && t <= t'
    ensures tail <= tail'
    decreases t' - t
  {
    if t < t' {
      TailStep(amount, t, tail, up);
      LongerTail(amount, t + 1, tail + Chunk(up, t), up / 10, t', tail', up');
    } else {
      OneTail(tail, up, tail', up', Pow(10, t));
    }
  }

  lemma {:induction false} OneTail(a: nat, u: nat, b: nat, v: nat, p: nat)
    requires a < p && b < p && a + u * p == b + v * p
    ensures a == b
  {
    assert (u - v) * p == b - a;
    Multiples(p, u - v);
  }

  /**
   * The amount is split without loss: every piece is one digit in its place, or the dust, which is not above the
   * threshold. `outs` lists the calls of both handlers in their order.
   */
  method DecomposeAmountIntoDigits(amount: uint64, dustThreshold: uint64)
    returns (chunks: seq<nat>, dust: nat, outs: seq<nat>)
    ensures Total(outs) == amount && dust <= dustThreshold && AllDigits(chunks)
    ensures outs == (if dust == 0 then [] else [dust]) + chunks
    ensures CutAtThreshold(amount, dustThreshold, dust, chunks)
  {
    hide AllDigits, Total, Pow, Remaining, Splitting, Wrap64, Cutting, CutAtThreshold;
    var left: nat, order: nat := amount, 1;
    ghost var k: nat, t: nat, up: nat := 0, 0, amount;
    var pending: nat, handled := 0, false;
    chunks, outs := [], [];
    StartSplitting(amount, dustThreshold);
    StartCutting(amount, dustThreshold);
    while 0 != left
      invariant 0 <= left && (left > 0 ==> order == Pow(10, k))
      invariant Splitting(amount, dustThreshold, left, k, pending, handled, chunks, outs)
      invariant Cutting(amount, dustThreshold, t, up, left, k, pending, chunks)
      decreases left
    {
      DigitStep(left, k);
      PowStep(k);
      SplittingBelow(amount, dustThreshold, left, k, pending, handled, chunks, outs);
      var chunk: nat := left % 10 * order;
      if pending + chunk <= dustThreshold {
        t, up := CutsDust(amount, dustThreshold, t, up, left, k, pending, chunks);
        KeepsDust(amount, dustThreshold, left, k, pending, handled, chunks, outs);
        pending := pending + chunk;
      } else {
        CutsChunk(amount, dustThreshold, t, up, left, k, pending, chunks);
        KeepsChunk(amount, dustThreshold, left, k, pending, handled, chunks, outs);
        if !handled && 0 != pending {
          outs, handled := outs + [pending], true;
        }
        if 0 != chunk {
          outs, chunks := outs + [chunk], chunks + [chunk];
        }
      }
      if left / 10 > 0 {
        WrapSmall(order * 10);
      }
      left, order := left / 10, Wrap64(order * 10);
      k := k + 1;
    }
    dust := pending;
    EndCutting(amount, dustThreshold, t, up, k, pending, chunks);
    EndSplitting(amount, dustThreshold, k, pending, handled, chunks, outs);
    if !handled && 0 != pending {
      TotalAppend(outs, pending);
      outs := outs + [pending];
    }
  }

  lemma {:induction false} EndSplitting(amount: nat, threshold: nat, k: nat, pending: nat, handled: bool,
                                        chunks: seq<nat>, outs: seq<nat>)
    requires Splitting(amount, threshold, 0, k, pending, handled, chunks, outs)
    ensures Total(outs) + (if handled then 0 else pending) == amount && pending <= threshold && AllDigits(chunks)
    ensures outs == (if handled then [pending] else []) + chunks && (handled ==> pending != 0)
    ensures !handled && pending != 0 ==> chunks == []
  {
  }

  lemma {:induction false} SplittingBelow(amount: nat, threshold: nat, left: nat, k: nat, pending: nat, handled: bool,
                                          chunks: seq<nat>, outs: seq<nat>)
    requires Splitting(amount, threshold, left, k, pending, handled, chunks, outs)
    ensures Remaining(left, k) <= amount && pending <= threshold
    ensures chunks != [] ==> threshold < pending + Pow(10, k)
  {
  }

  lemma {:induction false} StartSplitting(amount: nat, threshold: nat)
    ensures Splitting(amount, threshold, amount, 0, 0, false, [], []) && Pow(10, 0) == 1
  {
  }

  lemma {:induction false} PowStep(k: nat)
    ensures Pow(10, k) * 10 == Pow(10, k + 1)
  {
  }

  /** With a threshold of 0 there is no dust, and the chunks are all digits of the amount that are not zero. */
  lemma {:induction false} NoDust(amount: nat, dust: nat, chunks: seq<nat>)
    requires CutAtThreshold(amount, 0, dust, chunks) && dust == 0
    ensures chunks == Pieces(amount, 0)
  {
    var t: nat, up: nat :| Cut(amount, 0, t, up, dust, chunks);
    hide Pieces, Pow;
    TrailingZeros(up, 0, t);
  }

  lemma {:induction false} TrailingZeros(up: nat, k: nat, t: nat)
    ensures Pieces(Remaining(up, t), k) == Pieces(up, k + t)
    decreases t
  {
    hide Pieces, Remaining, Pow;
    if t == 0 {
      NoPlaces(up);
    } else {
      TrailingZeros(up, k + 1, t - 1);
      PlaceMore(up, t - 1);
      LeadingZero(Remaining(up, t - 1), k);
    }
  }

  lemma {:induction false} NoPlaces(up: nat)
    ensures Remaining(up, 0) == up
  {
    assert Pow(10, 0) == 1;
  }

  lemma {:induction false} PlaceMore(up: nat, t: nat)
    ensures Remaining(up, t + 1) == 10 * Remaining(up, t)
  {
    PlaceScaled(10, 0, up, Pow(10, t));
  }

  lemma {:induction false} LeadingZero(x: nat, k: nat)
    ensures Pieces(10 * x, k) == Pieces(x, k + 1)
  {
    hide Pow, Chunk;
    assert 10 * x % 10 == 0 && 10 * x / 10 == x;
  }

  /** The merging of `constructMinerTx`: at most `maxOuts` amounts, the same total. */
  method MergeAmounts(amounts: seq<nat>, maxOuts: nat) returns (r: seq<nat>)
    requires maxOuts >= 1
    ensures Total(r) == Total(amounts) && |r| <= maxOuts
    ensures |amounts| <= maxOuts ==> r == amounts
    ensures |amounts| > maxOuts ==> |r| == maxOuts && r[..maxOuts - 1] == amounts[..maxOuts - 1]
  {
    r := amounts;
    while maxOuts < |r|
      invariant Total(r) == Total(amounts) && (|amounts| <= maxOuts ==> r == amounts)
      invariant |amounts| > maxOuts ==> |r| >= maxOuts && r[..maxOuts - 1] == amounts[..maxOuts - 1]
      decreases |r|
    {
      var n := |r|;
      MergeStep(r);
      r := r[n - 2 := r[n - 2] + r[n - 1]][..n - 1];
    }
  }

  lemma {:induction false} MergeStep(r: seq<nat>)
    requires |r| >= 2
    ensures Total(r[|r| - 2 := r[|r| - 2] + r[|r| - 1]][..|r| - 1]) == Total(r)
  {
    var n := |r|;
    var t := r[n - 2 := r[n - 2] + r[n - 1]][..n - 1];
    assert t[..n - 2] == r[..n - 2] && r[..n - 1][..n - 2] == r[..n - 2];
    assert r[..n - 1][n - 2] == r[n - 2];
  }

  // ---- The coinbase transaction ----

  function ToOutputs(amounts: seq<nat>, keyOf: nat -> nat): (r: seq<Output>)
    requires forall i :: 0 <= i < |amounts| ==> amounts[i] < TWO64
    ensures |r| == |amounts| && forall i :: 0 <= i < |r| ==> r[i] == Output(amounts[i], KeyOutput(keyOf(i)))
  {
    seq(|amounts|, i requires 0 <= i < |amounts| => Output(amounts[i], KeyOutput(keyOf(i))))
  }

  lemma {:induction false} SumOfOutputs(outs: seq<Output>, amounts: seq<nat>)
    requires |outs| == |amounts| && forall i :: 0 <= i < |outs| ==> outs[i].amount == amounts[i]
    ensures SumOutputs(outs) == Total(amounts)
  {
    if outs != [] {
      SumOfOutputs(outs[..|outs| - 1], amounts[..|amounts| - 1]);
    }
  }

  lemma {:induction false} PartBelowSum(s: seq<nat>, i: nat)
    requires i < |s|
    ensures s[i] <= Total(s)
  {
    if i < |s| - 1 {
      PartBelowSum(s[..|s| - 1], i);
    }
  }

  /** What the miner's call of `getBlockReward` returns for a block of the given size. */
  function MinerReward(env: Env, blocks: seq<BlockEntry>, b: Block, median: nat, size: nat, fee: uint64)
    : Option<RewardAndEmission>
  {
    BlockReward(env.baseReward(blocks, b, CoinsOf(blocks)), env.fullRewardZone(|blocks|), median, size, fee,
                env.penalizeFee(|blocks|))
  }

  /** The share of the governance output, `None` outside its range of heights; never above the reward. */
  type Governance = g: Option<uint64 -> uint64> | g.Some? ==> forall x: uint64 :: g.value(x) <= x
    witness None

  /** With no coins generated yet, a governance share is added to the full reward and the totals differ. */
  predicate SharePaid(blocks: seq<BlockEntry>, governance: Governance, reward: uint64) {
    governance.Some? && CoinsOf(blocks) == 0 ==> governance.value(reward) == 0
  }

  /** A coinbase for height |blocks| that pays out exactly `reward`. */
  ghost predicate PaysOut(env: Env, blocks: seq<BlockEntry>, tx: Transaction, reward: uint64) {
    MinerPrevalidated(env, tx, |blocks|) && SumOutputs(tx.outputs) == reward
  }

  /** The outputs are the digits of the amount in order, the last of them merged with the surplus if there are more. */
  ghost predicate PaidInDigits(outs: seq<Output>, amount: nat, keyOf: nat -> nat, maxOuts: nat) {
    var digits := Pieces(amount, 0);
    && (forall i :: 0 <= i < |outs| ==> outs[i].target == KeyOutput(keyOf(i)))
    && |outs| == (if |digits| <= maxOuts then |digits| else maxOuts)
    && forall i :: 0 <= i < |outs| && (|digits| <= maxOuts || i < maxOuts - 1) ==> outs[i].amount == digits[i]
  }

  /** The governance output comes last, and the others pay the rest in digits. */
  ghost predicate Divided(outs: seq<Output>, total: uint64, governance: Governance, keyOf: nat -> nat, maxOuts: nat) {
    if governance.None? then PaidInDigits(outs, total, keyOf, maxOuts)
    else
      && outs != []
      && var n, share := |outs| - 1, governance.value(total);
         outs[n] == Output(share, KeyOutput(keyOf(n))) && PaidInDigits(outs[..n], total - share, keyOf, maxOuts)
  }

  /** The miner's own outputs. */
  method MinerOutputs(amount: uint64, keyOf: nat -> nat, maxOuts: nat) returns (outputs: seq<Output>)
    requires maxOuts >= 1
    ensures SumOutputs(outputs) == amount && |outputs| <= maxOuts && PaidInDigits(outputs, amount, keyOf, maxOuts)
  {
    hide SumOutputs, AllDigits, Total, Pieces, CutAtThreshold, PaidInDigits;
    var chunks, dust, amounts := DecomposeAmountIntoDigits(amount, 0);
    assert amounts == chunks;
    NoDust(amount, dust, chunks);
    var merged := MergeAmounts(amounts, maxOuts);
    forall i | 0 <= i < |merged| ensures merged[i] < TWO64 {
      PartBelowSum(merged, i);
    }
    outputs := ToOutputs(merged, keyOf);
    SumOfOutputs(outputs, merged);
    PaidMerged(merged, amount, keyOf, maxOuts);
  }

  lemma {:induction false} PaidMerged(merged: seq<nat>, amount: nat, keyOf: nat -> nat, maxOuts: nat)
    requires maxOuts >= 1 && forall i :: 0 <= i < |merged| ==> merged[i] < TWO64
    requires var digits := Pieces(amount, 0);
             if |digits| <= maxOuts then merged == digits
             else |merged| == maxOuts && merged[..maxOuts - 1] == digits[..maxOuts - 1]
    ensures PaidInDigits(ToOutputs(merged, keyOf), amount, keyOf, maxOuts)
  {
    hide Pieces;
    var digits := Pieces(amount, 0);
    if |digits| > maxOuts {
      forall i | 0 <= i < maxOuts - 1 ensures merged[i] == digits[i] {
        assert merged[..maxOuts - 1][i] == digits[..maxOuts - 1][i];
      }
    }
  }

  lemma {:induction false} DividedMeans(main: seq<Output>, last: Output, rest: nat, total: uint64,
                                        governance: Governance, keyOf: nat -> nat, maxOuts: nat)
    requires governance.Some? && rest == total - governance.value(total) && PaidInDigits(main, rest, keyOf, maxOuts)
    requires last == Output(governance.value(total), KeyOutput(keyOf(|main|)))
    ensures Divided(main + [last], total, governance, keyOf, maxOuts)
  {
    hide PaidInDigits;
    assert (main + [last])[..|main|] == main;
  }

  lemma {:induction false} UndividedMeans(outs: seq<Output>, total: uint64, governance: Governance, keyOf: nat -> nat,
                                          maxOuts: nat)
    requires governance.None? && PaidInDigits(outs, total, keyOf, maxOuts)
    ensures Divided(outs, total, governance, keyOf, maxOuts)
  {
  }

  /** The outputs, and their sum as the code computes it. */
  method DivideReward(blocks: seq<BlockEntry>, total: uint64, governance: Governance, keyOf: nat -> nat, maxOuts: nat)
    returns (outputs: seq<Output>, summary: nat)
    requires maxOuts >= 1
    ensures summary == total <==> SharePaid(blocks, governance, total)
    ensures summary == total ==>
              && SumOutputs(outputs) == total && |outputs| <= maxOuts + 1
              && Divided(outputs, total, governance, keyOf, maxOuts)
  {
    hide SumOutputs, Wrap64, Divided, PaidInDigits;
    var blockReward, share := total, 0;
    if governance.Some? {
      share := governance.value(total);
      if CoinsOf(blocks) != 0 {
        blockReward := total - share;
      }
    }
    outputs := MinerOutputs(blockReward, keyOf, maxOuts);
    summary := blockReward;
    if governance.None? {
      UndividedMeans(outputs, total, governance, keyOf, maxOuts);
    } else {
      var last := Output(share, KeyOutput(keyOf(|outputs|)));
      SumOutputsAppend(outputs, last);
      summary := Wrap64(summary + share);
      WrapShare(blockReward, share, total);
      if summary == total {
        DividedMeans(outputs, last, blockReward, total, governance, keyOf, maxOuts);
      }
      outputs := outputs + [last];
    }
  }

  /**
   * `constructMinerTx`: if the keys can be derived it succeeds exactly when the reward is defined, an output is allowed
   * and the governance share is consistent; the outputs then add up to the reward without any wrap-around.
   */
  method ConstructMinerTx(env: Env, blocks: seq<BlockEntry>, b: Block, median: nat, size: nat, fee: uint64,
                          governance: Governance, keysOk: bool, keyOf: nat -> nat, extra: seq<nat>, maxOuts: nat)
    returns (r: Option<Transaction>)
    ensures var reward := MinerReward(env, blocks, b, median, size, fee);
            && (r.Some? ==> reward.Some? && maxOuts >= 1 && SharePaid(blocks, governance, reward.value.reward))
            && (keysOk && reward.Some? && maxOuts >= 1 && SharePaid(blocks, governance, reward.value.reward) ==>
                r.Some?)
            && (r.Some? ==> PaysOut(env, blocks, r.value, reward.value.reward)
                            && r.value.extra == extra && |r.value.outputs| <= maxOuts + 1
                            && Divided(r.value.outputs, reward.value.reward, governance, keyOf, maxOuts))
  {
    hide BlockReward, SumOutputs, Wrap64, PaysOut, Divided, SharePaid;
    var reward := MinerReward(env, blocks, b, median, size, fee);
    if reward.None? || maxOuts < 1 {
      return None;
    }
    var total := reward.value.reward;
    var outputs, summary := DivideReward(blocks, total, governance, keyOf, maxOuts);
    if outputs != [] && !keysOk {
      return None;
    }
    if summary != total {
      return None;
    }
    var tx := Transaction([BaseInput(|blocks|)], outputs, |blocks| + env.unlockWindow, extra, []);
    MinerShape(env, blocks, tx, total);
    r := Some(tx);
  }

  /** The first block with a base reward of 10 and a governance share of 1: the totals 11 and 10 differ. */
  lemma {:induction false} FirstShareExample(env: Env, b: Block)
    requires env.baseReward([], b, 0) == 10
    ensures var governance: Governance := Some(x => if x == 0 then 0 else 1);
            var reward := MinerReward(env, [], b, 0, 0, 0);
            reward.Some? && reward.value.reward == 10 && !SharePaid([], governance, reward.value.reward)
  {
  }

  lemma {:induction false} MinerShape(env: Env, blocks: seq<BlockEntry>, tx: Transaction, reward: uint64)
    requires tx == Transaction([BaseInput(|blocks|)], tx.outputs, |blocks| + env.unlockWindow, tx.extra, [])
    requires SumOutputs(tx.outputs) == reward
    ensures PaysOut(env, blocks, tx, reward)
  {
    hide SumOutputs;
  }

  lemma {:induction false} SumOutputsAppend(outs: seq<Output>, o: Output)
    ensures SumOutputs(outs + [o]) == SumOutputs(outs) + o.amount
  {
    assert (outs + [o])[..|outs|] == outs;
  }

  lemma {:induction false} WrapShare(blockReward: uint64, share: uint64, total: uint64)
    requires share <= total && (blockReward == total || blockReward == total - share)
    ensures Wrap64(blockReward + share) == total <==> blockReward + share == total
  {
  }

  // ---- The block template ----

  /** The base reward of a height depends on the header and not on the coinbase. */
  ghost predicate HeaderReward(env: Env) {
    forall blocks, b: Block, t: Block, coins :: b == t.(base := b.base) ==>
      env.baseReward(blocks, b, coins) == env.baseReward(blocks, t, coins)
  }

  /** The miner penalises against half the stored limit, which is the validator's median. */
  lemma {:induction false} SameReward(env: Env, blocks: seq<BlockEntry>, b: Block, t: Block, limit: nat, size: nat,
                                      fee: uint64)
    requires HeaderReward(env) && b == t.(base := b.base) && limit == NextSizeLimit(env, blocks)
    ensures MinerReward(env, blocks, t, limit / 2, size, fee) == RewardFor(env, blocks, b, size, fee)
  {
    var zone, median := env.fullRewardZone(|blocks|), env.sizeMedian(LastSizes(blocks, env.rewardWindow));
    assert EffectiveMedian(limit / 2, zone) == EffectiveMedian(median, zone);
    assert env.baseReward(blocks, b, CoinsOf(blocks)) == env.baseReward(blocks, t, CoinsOf(blocks));
  }

  lemma {:induction false} SumSizesFront(env: Env, base: Transaction, txs: seq<Transaction>)
    ensures SumSizes(env, [base] + txs) == env.txSize(base) + SumSizes(env, txs)
  {
    var all := [base] + txs;
    if txs == [] {
      assert all[..0] == [];
    } else {
      var n := |txs| - 1;
      SumSizesFront(env, base, txs[..n]);
      assert all[..|all| - 1] == [base] + txs[..n];
    }
  }

  /** A template whose coinbase passes both checks on it that `pushBlock` makes. */
  ghost predicate Mineable(env: Env, blocks: seq<BlockEntry>, b: Block, txs: seq<Transaction>, fee: uint64) {
    MinerPrevalidated(env, b.base, |blocks|) && MinerValidated(env, blocks, b, SumSizes(env, [b.base] + txs), fee)
  }

  lemma {:induction false} TemplateFits(env: Env, blocks: seq<BlockEntry>, t: Block, base: Transaction,
                                        txs: seq<Transaction>, limit: nat, size: nat, fee: uint64)
    requires HeaderReward(env) && limit == NextSizeLimit(env, blocks) && size == SumSizes(env, txs) + env.txSize(base)
    requires var reward := MinerReward(env, blocks, t, limit / 2, size, fee);
             reward.Some? && PaysOut(env, blocks, base, reward.value.reward)
    ensures Mineable(env, blocks, t.(base := base), txs, fee)
  {
    hide HeaderReward, NextSizeLimit, MinerReward, RewardFor, SumSizes, SumOutputs, MinerPrevalidated, Wrap64;
    SumSizesFront(env, base, txs);
    SameReward(env, blocks, t.(base := base), t, limit, size, fee);
    WrapSmall(SumOutputs(base.outputs));
  }

  /** The coinbase pays exactly the reward for the block size that includes it. */
  ghost predicate PaysForItsSize(env: Env, blocks: seq<BlockEntry>, t: Block, limit: nat, txsSize: nat, fee: uint64,
                                 base: Transaction) {
    var reward := MinerReward(env, blocks, t, limit / 2, txsSize + env.txSize(base), fee);
    reward.Some? && PaysOut(env, blocks, base, reward.value.reward)
  }

  lemma {:induction false} PaddingPays(env: Env, blocks: seq<BlockEntry>, tx: Transaction, extra: seq<nat>,
                                       reward: uint64)
    requires PaysOut(env, blocks, tx, reward)
    ensures PaysOut(env, blocks, tx.(extra := extra), reward)
  {
  }

  datatype Attempt = Ready(base: Transaction) | Again(size: nat) | GiveUp

  /** One round of the sizing loop on a coinbase just built for `size`; `Ready` only at exactly that size. */
  method FitSize(env: Env, built: Transaction, txsSize: nat, size: nat) returns (r: Attempt)
    requires txsSize <= size
    ensures r.Ready? ==> size == txsSize + env.txSize(r.base) && r.base == built.(extra := r.base.extra)
    ensures r.Again? ==> txsSize <= r.size
    ensures env.txSize(built) == size - txsSize ==> r == Ready(built)
    ensures env.txSize(built) > size - txsSize ==> r == Again(txsSize + env.txSize(built))
  {
    var base := built;
    var blobSize := env.txSize(base);
    if blobSize > size - txsSize {
      return Again(txsSize + blobSize);
    }
    if blobSize < size - txsSize {
      var delta := size - txsSize - blobSize;
      base := base.(extra := base.extra + seq(delta, _ => 0));
      if size != txsSize + env.txSize(base) {
        if size + 1 != txsSize + env.txSize(base) {
          return GiveUp;
        }
        base := base.(extra := base.extra[..|base.extra| - 1]);
        if size != txsSize + env.txSize(base) {
          return Again(size + (delta - 1));
        }
      }
    }
    if size != txsSize + env.txSize(base) {
      return GiveUp;
    }
    r := Ready(base);
  }

  /**
   * The coinbase part of `get_block_template`, for a header `t`, the transactions `txs` taken from the pool and keys
   * that differ from try to try. Whatever template comes out right after an accepted push passes the validator.
   */
  method GetBlockTemplate(env: Env, blocks: seq<BlockEntry>, t: Block, txs: seq<Transaction>, limit: nat, txsSize: nat,
                          fee: uint64, governance: Governance, keysOk: bool, keyOf: (nat, nat) -> nat, extra: seq<nat>)
    returns (r: Option<Block>)
    ensures r.Some? ==>
            r.value == t.(base := r.value.base) && PaysForItsSize(env, blocks, t, limit, txsSize, fee, r.value.base)
    ensures r.Some? && HeaderReward(env) && limit == NextSizeLimit(env, blocks) && txsSize == SumSizes(env, txs) ==>
              Mineable(env, blocks, r.value, txs, fee)
  {
    hide HeaderReward, NextSizeLimit, SumSizes, MinerReward, PaysOut, Mineable, SharePaid;
    var median := limit / 2;
    var first := ConstructMinerTx(env, blocks, t, median, txsSize, fee, governance, keysOk, i => keyOf(0, i), extra,
                                  14);
    if first.None? {
      return None;
    }
    var size := txsSize + env.txSize(first.value);
    for tries := 0 to 10
      invariant txsSize <= size
    {
      var built := ConstructMinerTx(env, blocks, t, median, size, fee, governance, keysOk, i => keyOf(tries + 1, i),
                                    extra, 14);
      if built.None? {
        return None;
      }
      var fit := FitSize(env, built.value, txsSize, size);
      match fit {
        case Again(next) => size := next;
        case GiveUp => return None;
        case Ready(base) =>
          ghost var reward := MinerReward(env, blocks, t, median, size, fee).value.reward;
          PaddingPays(env, blocks, built.value, base.extra, reward);
          if HeaderReward(env) && limit == NextSizeLimit(env, blocks) && txsSize == SumSizes(env, txs) {
            TemplateFits(env, blocks, t, base, txs, limit, size, fee);
          }
          return Some(t.(base := base));
      }
    }
    r := None;
  }

  /** A template that also passes the other checks of `pushBlock` is accepted by it. */
  lemma {:induction false} TemplateAccepted(env: Env, blocks: seq<BlockEntry>, b: Block)
    requires NamesTxs(b) && Mineable(env, blocks, b, BlockTxs(b)[1..], Wrap64(SumFees(BlockTxs(b))))
    requires HeaderAccepted(env, blocks, Rebuild(blocks), b)
    requires TxsVerdict(env, blocks, Rebuild(blocks), BlockTxs(b), |BlockTxs(b)|) == Pass
    requires SumSizes(env, BlockTxs(b)) <= env.maxBlockSize(|blocks|)
    ensures VerdictOf(env, blocks, b).Accept?
  {
    assert BlockTxs(b) == [b.base] + BlockTxs(b)[1..];
    hide HeaderAccepted, TxsVerdict, SumSizes, MinerPrevalidated, MinerValidated, Rebuild, SumFees, Wrap64;
    AcceptedWhen(env, blocks, b);
  }
}
