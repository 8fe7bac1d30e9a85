/** Checks on a single transaction (`CryptoNoteFormatUtils.cpp`, `core::check_tx_semantic`). */
module FormatUtils {
  import opened LedgerTypes
  import opened LedgerCache
  import opened LedgerChain

  /** `checkMultisignatureInputsDiff`. */
  method CheckMultisignatureInputsDiff(inputs: seq<Input>) returns (r: bool)
    ensures r <==> DistinctMsigs(inputs)
  {
    var usage: set<(uint64, nat)> := {};
    var i := 0;
    while i < |inputs|
      invariant 0 <= i <= |inputs|
      invariant DistinctMsigs(inputs[..i])
      invariant usage == MsigRefs(inputs[..i])
    {
      if inputs[i].MultisignatureInput? {
        var ref := (inputs[i].amount, inputs[i].outputIndex);
        if ref in usage {
          return false;
        }
        usage := usage + {ref};
      }
      MsigRefsStep(inputs, i);
      i := i + 1;
    }
    assert inputs[..i] == inputs;
    return true;
  }

  lemma {:induction false} MsigRefsStep(inputs: seq<Input>, i: nat)
    requires i < |inputs|
    ensures MsigRefs(inputs[..i + 1]) == MsigRefs(inputs[..i]) +
              (if inputs[i].MultisignatureInput? then {(inputs[i].amount, inputs[i].outputIndex)} else {})
  {
    assert inputs[..i + 1][i] == inputs[i];
    forall x | x in MsigRefs(inputs[..i]) ensures x in MsigRefs(inputs[..i + 1]) {
      var k :| 0 <= k < i && inputs[..i][k].MultisignatureInput?
               && x == (inputs[..i][k].amount, inputs[..i][k].outputIndex);
      assert inputs[..i + 1][k] == inputs[..i][k];
    }
  }

  lemma {:induction false} KeyImagesStep(inputs: seq<Input>, i: nat)
    requires i < |inputs|
    ensures KeyImages(inputs[..i + 1]) == KeyImages(inputs[..i]) +
              (if inputs[i].KeyInput? then {inputs[i].keyImage} else {})
  {
    assert inputs[..i + 1][i] == inputs[i];
    forall x | x in KeyImages(inputs[..i]) ensures x in KeyImages(inputs[..i + 1]) {
      var k :| 0 <= k < i && inputs[..i][k].KeyInput? && x == inputs[..i][k].keyImage;
      assert inputs[..i + 1][k] == inputs[..i][k];
    }
  }

  lemma {:induction false} DistinctStep(inputs: seq<Input>, i: nat)
    requires i < |inputs|
    ensures DistinctImages(inputs[..i + 1]) <==>
              DistinctImages(inputs[..i]) && (inputs[i].KeyInput? ==> inputs[i].keyImage !in KeyImages(inputs[..i]))
    ensures DistinctMsigs(inputs[..i + 1]) <==>
              DistinctMsigs(inputs[..i]) && (inputs[i].MultisignatureInput? ==>
                (inputs[i].amount, inputs[i].outputIndex) !in MsigRefs(inputs[..i]))
  {
    var before, all := inputs[..i], inputs[..i + 1];
    assert all[i] == inputs[i];
    assert forall k :: 0 <= k < i ==> all[k] == before[k];
    if inputs[i].KeyInput? && inputs[i].keyImage in KeyImages(before) {
      var k :| 0 <= k < i && before[k].KeyInput? && before[k].keyImage == inputs[i].keyImage;
      assert all[k] == before[k];
    }
    if inputs[i].MultisignatureInput? && (inputs[i].amount, inputs[i].outputIndex) in MsigRefs(before) {
      var k :| 0 <= k < i && before[k].MultisignatureInput?
               && (before[k].amount, before[k].outputIndex) == (inputs[i].amount, inputs[i].outputIndex);
      assert all[k] == before[k];
    }
    forall k | 0 <= k < i
      ensures before[k].KeyInput? ==> before[k].keyImage in KeyImages(before)
      ensures before[k].MultisignatureInput? ==> (before[k].amount, before[k].outputIndex) in MsigRefs(before)
    {
    }
  }

  /** The ring of a key input: not empty, and no relative offset after the first is zero. */
  predicate RingOk(outputIndexes: seq<nat>) {
    outputIndexes != [] && forall k :: 1 <= k < |outputIndexes| ==> outputIndexes[k] != 0
  }

  /** `check_tx_inputs_keyimages_diff`, with the key-image domain check as a parameter. */
  method CheckKeyImagesDiff(inputs: seq<Input>, inDomain: nat -> bool) returns (r: bool)
    ensures r <==> DistinctImages(inputs)
                   && forall i :: 0 <= i < |inputs| && inputs[i].KeyInput? ==>
                        RingOk(inputs[i].outputIndexes) && inDomain(inputs[i].keyImage)
  {
    var seen: set<nat> := {};
    var i := 0;
    while i < |inputs|
      invariant 0 <= i <= |inputs|
      invariant DistinctImages(inputs[..i])
      invariant seen == KeyImages(inputs[..i])
      invariant forall k :: 0 <= k < i && inputs[k].KeyInput? ==>
                  RingOk(inputs[k].outputIndexes) && inDomain(inputs[k].keyImage)
    {
      if inputs[i].KeyInput? {
        if inputs[i].keyImage in seen {
          return false;
        }
        seen := seen + {inputs[i].keyImage};
        if inputs[i].outputIndexes == [] || !inDomain(inputs[i].keyImage) {
          return false;
        }
        if 0 in inputs[i].outputIndexes[1..] {
          return false;
        }
      }
      KeyImagesStep(inputs, i);
      i := i + 1;
    }
    assert inputs[..i] == inputs;
    return true;
  }

  /** `check_outs_overflow`: the wrapping test is exact. */
  method CheckOutsOverflow(outs: seq<Output>) returns (r: bool)
    ensures r <==> SumOutputs(outs) < TWO64
  {
    var money: uint64 := 0;
    var i := 0;
    while i < |outs|
      invariant 0 <= i <= |outs|
      invariant SumOutputs(outs[..i]) == money
    {
      assert outs[..i + 1][..i] == outs[..i];
      assert SumOutputs(outs[..i + 1]) == money + outs[i].amount;
      if money > Wrap64(outs[i].amount + money) {
        SumOutputsMonotone(outs, i + 1);
        return false;
      }
      money := Wrap64(money + outs[i].amount);
      i := i + 1;
    }
    assert outs[..i] == outs;
    return true;
  }

  lemma {:induction false} SumOutputsMonotone(outs: seq<Output>, k: nat)
    requires k <= |outs|
    ensures SumOutputs(outs[..k]) <= SumOutputs(outs)
  {
    if k < |outs| {
      SumOutputsMonotone(outs[..|outs| - 1], k);
      assert outs[..|outs| - 1][..k] == outs[..k];
    } else {
      assert outs[..k] == outs;
    }
  }

  /** `check_inputs_overflow`. */
  method CheckInputsOverflow(inputs: seq<Input>) returns (r: bool)
    ensures r <==> SumInputs(inputs) < TWO64
  {
    var money: uint64 := 0;
    var i := 0;
    while i < |inputs|
      invariant 0 <= i <= |inputs|
      invariant SumInputs(inputs[..i]) == money
    {
      assert inputs[..i + 1][..i] == inputs[..i];
      var amount := InputAmount(inputs[i]);
      if money > Wrap64(amount + money) {
        SumInputsMonotone(inputs, i + 1);
        return false;
      }
      money := Wrap64(money + amount);
      i := i + 1;
    }
    assert inputs[..i] == inputs;
    return true;
  }

  lemma {:induction false} SumInputsMonotone(inputs: seq<Input>, k: nat)
    requires k <= |inputs|
    ensures SumInputs(inputs[..k]) <= SumInputs(inputs)
  {
    if k < |inputs| {
      SumInputsMonotone(inputs[..|inputs| - 1], k);
      assert inputs[..|inputs| - 1][..k] == inputs[..k];
    } else {
      assert inputs[..k] == inputs;
    }
  }

  /** `check_inputs_types_supported`. */
  method CheckInputTypes(inputs: seq<Input>) returns (r: bool)
    ensures r <==> forall i :: 0 <= i < |inputs| ==> !inputs[i].BaseInput?
  {
    var i := 0;
    while i < |inputs|
      invariant 0 <= i <= |inputs|
      invariant forall k :: 0 <= k < i ==> !inputs[k].BaseInput?
    {
      if inputs[i].BaseInput? {
        return false;
      }
      i := i + 1;
    }
    return true;
  }

  /** What `check_tx_semantic` lets through; signature counts and output validity are the parameter `shapeOk`. */
  ghost predicate Admissible(tx: Transaction, shapeOk: Transaction -> bool, inDomain: nat -> bool) {
    && Semantic(tx) && shapeOk(tx)
    && SumOutputs(tx.outputs) <= SumInputs(tx.inputs) < TWO64
    && forall i :: 0 <= i < |tx.inputs| && tx.inputs[i].KeyInput? ==>
         RingOk(tx.inputs[i].outputIndexes) && inDomain(tx.inputs[i].keyImage)
  }

  /**
   `check_tx_semantic`: what it lets into the pool has inputs, consumes nothing twice and does not create
   money.
   */
  method CheckTxSemantic(tx: Transaction, shapeOk: Transaction -> bool, inDomain: nat -> bool) returns (r: bool)
    ensures r ==> Semantic(tx)
    ensures r ==> SumOutputs(tx.outputs) <= SumInputs(tx.inputs) < TWO64
    ensures r <==> Admissible(tx, shapeOk, inDomain)
  {
    if tx.inputs == [] || !shapeOk(tx) {
      return false;
    }
    var typesOk := CheckInputTypes(tx.inputs);
    if !typesOk {
      return false;
    }
    var insOk := CheckInputsOverflow(tx.inputs);
    if !insOk {
      return false;
    }
    var outsOk := CheckOutsOverflow(tx.outputs);
    if !outsOk {
      return false;
    }
    if SumInputs(tx.inputs) < SumOutputs(tx.outputs) {
      return false;
    }
    var imagesOk := CheckKeyImagesDiff(tx.inputs, inDomain);
    if !imagesOk {
      return false;
    }
    r := CheckMultisignatureInputsDiff(tx.inputs);
  }
}
