/** The combinational helpers of src/0_core/util_modules.cpp: the two-input operation
  * multiplexer and the OR-reduction of the VLIW lanes' micro-operations. */
module UtilModules {
  import opened QDataType

  /** `VLIW_WIDTH`: number of micro-operation inputs of `Micro_operation_or`. */
  const VliwWidth := 2

  /** `Operation_mux::do_work`, one activation: with `in_valid` low, or select `0b00`,
    * the output is the operation whose type was set to 0 (its codeword keeps the
    * constructed 0); bit 0 of the select picks the left operand, `0b10` the right. */
  function OperationMux(valid: bool, sel: OpSel, left: Operation, right: Operation): (r: Operation)
    ensures !valid ==> r == ZeroOperation
    ensures valid && sel.val & 1 == 1 ==> r == left
    ensures valid && sel.val == 2 ==> r == right
    ensures valid && sel.val == 0 ==> r.IsNop() && r.codeword == 0
  {
    if !valid then ZeroOperation
    else match sel.val
      case 0 => ZeroOperation
      case 2 => right
      case 1 => left
      case 3 => left
  }

  /** The multiplexer always outputs one of its inputs or the zero operation, and it
    * outputs a non-NOP only when enabled with a non-zero select. */
  lemma OperationMuxRange(valid: bool, sel: OpSel, left: Operation, right: Operation)
    ensures OperationMux(valid, sel, left, right) in {ZeroOperation, left, right}
    ensures !OperationMux(valid, sel, left, right).IsNop() ==> valid && sel.val != 0
  {
  }

  /** Left fold of the micro-operation OR, starting from the all-zero micro-operation. */
  function OrAll(ins: seq<MicroOperation>): MicroOperation
  {
    if |ins| == 0 then ZeroMicroOperation else OrAll(ins[..|ins| - 1]).Or(ins[|ins| - 1])
  }

  /** `a` has no bit that `b` lacks, in any field. */
  predicate Below(a: MicroOperation, b: MicroOperation)
  {
    a.Or(b) == b
  }

  lemma BelowOrLeft(x: MicroOperation, p: MicroOperation, y: MicroOperation)
    requires Below(x, p)
    ensures Below(x, p.Or(y))
  {
    MicroOperationOrLaws(x, p, y);
  }

  lemma BelowOrRight(p: MicroOperation, y: MicroOperation)
    ensures Below(y, p.Or(y))
  {
    MicroOperationOrLaws(y, p, y);
    MicroOperationOrLaws(p, y, y);
    MicroOperationOrUnit(y, y);
  }

  lemma OrLeast(p: MicroOperation, y: MicroOperation, u: MicroOperation)
    requires Below(p, u) && Below(y, u)
    ensures Below(p.Or(y), u)
  {
    MicroOperationOrLaws(p, y, u);
  }

  /** Every input lies below the OR of all inputs. */
  lemma {:induction false} OrAllUpperBound(ins: seq<MicroOperation>, i: nat)
    requires i < |ins|
    ensures Below(ins[i], OrAll(ins))
    decreases |ins|
  {
    var init := ins[..|ins| - 1];
    if i == |ins| - 1 {
      BelowOrRight(OrAll(init), ins[i]);
    } else {
      OrAllUpperBound(init, i);
      BelowOrLeft(ins[i], OrAll(init), ins[|ins| - 1]);
    }
  }

  /** The OR of all inputs lies below every common upper bound of the inputs: it is
    * the least such bound, so it does not depend on the order of the lanes. */
  lemma {:induction false} OrAllLeast(ins: seq<MicroOperation>, u: MicroOperation)
    requires forall i :: 0 <= i < |ins| ==> Below(ins[i], u)
    ensures Below(OrAll(ins), u)
    decreases |ins|
  {
    if |ins| == 0 {
      MicroOperationOrLaws(ZeroMicroOperation, u, u);
      MicroOperationOrUnit(u, u);
    } else {
      var init := ins[..|ins| - 1];
      OrAllLeast(init, u);
      OrLeast(OrAll(init), ins[|ins| - 1], u);
    }
  }

  /** `Micro_operation_or::do_work`, one activation: ORs the `VLIW_WIDTH` inputs into a
    * zero-initialised micro-operation. */
  method MicroOperationOr(ins: seq<MicroOperation>) returns (r: MicroOperation)
    requires |ins| == VliwWidth
    ensures r == OrAll(ins)
  {
    r := ZeroMicroOperation;
    var i := 0;
    while i < VliwWidth
      invariant 0 <= i <= VliwWidth
      invariant r == OrAll(ins[..i])
    {
      assert ins[..i + 1][..i] == ins[..i];
      r := r.Or(ins[i]);
      i := i + 1;
    }
    assert ins[..VliwWidth] == ins;
  }
}
