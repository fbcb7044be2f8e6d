/** Fixed-width micro-architectural records of src/0_core/q_data_type.{h,cpp}:
  * every `sc_uint<W>` field is a `bvW`, so bitwise OR never leaves its width. */
module QDataType {

  /** `Multi_Q_insn`: an 8-bit opcode and a 6-bit mask register address. */
  datatype MultiQInsn = MultiQInsn(opcode: bv8, maskRegAddr: bv6)

  /** `Timing_point`: a 20-bit pre-interval and a 6-bit label. */
  datatype TimingPoint = TimingPoint(preInterval: bv20, timingLabel: bv6)

  /** `Operation`: a 2-bit type and an 8-bit codeword. */
  datatype Operation = Operation(opType: bv2, codeword: bv8)
  {
    /** `operator|`: field-wise OR; both operands are values and stay as they were. */
    function Or(other: Operation): Operation
    {
      Operation(opType | other.opType, codeword | other.codeword)
    }

    /** `is_nop`: the type is zero, whatever the codeword. */
    predicate IsNop() { opType == 0 }
  }

  const ZeroOperation := Operation(0, 0)

  /** `CS_line`: one control-store line. */
  datatype CsLine = CsLine(opLeft: Operation, opRight: Operation, condbits: bv2, minorLabel: bv4, eoi: bool)

  /** `Micro_operation`. */
  datatype MicroOperation = MicroOperation(uOperation: Operation, condbits: bv2, majorLabel: bv6, minorLabel: bv4)
  {
    /** `operator|`: field-wise OR of all four fields. */
    function Or(other: MicroOperation): MicroOperation
    {
      MicroOperation(uOperation.Or(other.uOperation), condbits | other.condbits,
                     majorLabel | other.majorLabel, minorLabel | other.minorLabel)
    }

    predicate IsNop() { uOperation.IsNop() }
  }

  const ZeroMicroOperation := MicroOperation(ZeroOperation, 0, 0, 0)

  /** `Micro_operation_for_qubit`. */
  datatype MicroOperationForQubit = MicroOperationForQubit(uOperation: Operation, condbits: bv2)

  // ------------------------------------------------------------------ equality operators

  /** `operator==(Multi_Q_insn)`: opcode and mask register address. */
  function MultiQInsnEq(a: MultiQInsn, b: MultiQInsn): (r: bool)
    ensures r <==> a == b
  {
    a.opcode == b.opcode && a.maskRegAddr == b.maskRegAddr
  }

  /** `operator==(Timing_point)`: pre-interval and label. */
  function TimingPointEq(a: TimingPoint, b: TimingPoint): (r: bool)
    ensures r <==> a == b
  {
    a.preInterval == b.preInterval && a.timingLabel == b.timingLabel
  }

  /** `operator==(Operation)`: type and codeword. */
  function OperationEq(a: Operation, b: Operation): (r: bool)
    ensures r <==> a == b
  {
    a.opType == b.opType && a.codeword == b.codeword
  }

  /** `operator==(CS_line)`: all five fields. */
  function CsLineEq(a: CsLine, b: CsLine): (r: bool)
    ensures r <==> a == b
  {
    OperationEq(a.opLeft, b.opLeft) && OperationEq(a.opRight, b.opRight) &&
    a.condbits == b.condbits && a.minorLabel == b.minorLabel && a.eoi == b.eoi
  }

  /** `operator==(Micro_operation)`: all four fields. */
  function MicroOperationEq(a: MicroOperation, b: MicroOperation): (r: bool)
    ensures r <==> a == b
  {
    OperationEq(a.uOperation, b.uOperation) && a.condbits == b.condbits &&
    a.majorLabel == b.majorLabel && a.minorLabel == b.minorLabel
  }

  /** `operator==(Micro_operation_for_qubit)`. */
  function MicroOperationForQubitEq(a: MicroOperationForQubit, b: MicroOperationForQubit): (r: bool)
    ensures r <==> a == b
  {
    OperationEq(a.uOperation, b.uOperation) && a.condbits == b.condbits
  }

  // ------------------------------------------------------------------ OR algebra

  /** OR of operations is commutative. */
  lemma OperationOrComm(a: Operation, b: Operation)
    ensures a.Or(b) == b.Or(a)
  {
    assert a.opType | b.opType == b.opType | a.opType;
    assert a.codeword | b.codeword == b.codeword | a.codeword;
  }

  /** OR of operations is associative. */
  lemma OperationOrAssoc(a: Operation, b: Operation, c: Operation)
    ensures a.Or(b).Or(c) == a.Or(b.Or(c))
  {
    var l, r := a.Or(b).Or(c), a.Or(b.Or(c));
    assert l.opType == r.opType;
    assert l.codeword == r.codeword;
  }

  /** OR of operations is idempotent and the zero operation is its unit. */
  lemma OperationOrUnit(a: Operation)
    ensures a.Or(a) == a
    ensures a.Or(ZeroOperation) == a
  {
    assert a.opType | a.opType == a.opType && a.opType | 0 == a.opType;
    assert a.codeword | a.codeword == a.codeword && a.codeword | 0 == a.codeword;
  }

  /** OR of operations is commutative, associative and idempotent, and the zero
    * operation is its unit. */
  lemma OperationOrLaws(a: Operation, b: Operation, c: Operation)
    ensures a.Or(b) == b.Or(a)
    ensures a.Or(b).Or(c) == a.Or(b.Or(c))
    ensures a.Or(a) == a
    ensures a.Or(ZeroOperation) == a
  {
    OperationOrComm(a, b);
    OperationOrAssoc(a, b, c);
    OperationOrUnit(a);
  }

  /** The OR of two operations is a no-op exactly when both are. */
  lemma OperationOrNop(a: Operation, b: Operation)
    ensures a.Or(b).IsNop() <==> a.IsNop() && b.IsNop()
  {
    if a.Or(b).IsNop() {
      assert a.opType & (a.opType | b.opType) == a.opType;
    }
  }

  /** The micro-operation OR is commutative and associative, field by field. */
  lemma MicroOperationOrLaws(a: MicroOperation, b: MicroOperation, c: MicroOperation)
    ensures a.Or(b) == b.Or(a)
    ensures a.Or(b).Or(c) == a.Or(b.Or(c))
  {
    OperationOrLaws(a.uOperation, b.uOperation, c.uOperation);
    assert a.condbits | b.condbits == b.condbits | a.condbits;
    assert a.majorLabel | b.majorLabel == b.majorLabel | a.majorLabel;
    assert a.minorLabel | b.minorLabel == b.minorLabel | a.minorLabel;
    assert (a.condbits | b.condbits) | c.condbits == a.condbits | (b.condbits | c.condbits);
    assert (a.majorLabel | b.majorLabel) | c.majorLabel == a.majorLabel | (b.majorLabel | c.majorLabel);
    assert (a.minorLabel | b.minorLabel) | c.minorLabel == a.minorLabel | (b.minorLabel | c.minorLabel);
  }

  /** The micro-operation OR is idempotent, has the zero micro-operation as unit,
    * and is a no-op exactly when both operands are. */
  lemma MicroOperationOrUnit(a: MicroOperation, b: MicroOperation)
    ensures a.Or(a) == a
    ensures a.Or(ZeroMicroOperation) == a
    ensures a.Or(b).IsNop() <==> a.IsNop() && b.IsNop()
  {
    OperationOrLaws(a.uOperation, b.uOperation, b.uOperation);
    OperationOrNop(a.uOperation, b.uOperation);
    assert a.condbits | a.condbits == a.condbits && a.condbits | 0 == a.condbits;
    assert a.majorLabel | a.majorLabel == a.majorLabel && a.majorLabel | 0 == a.majorLabel;
    assert a.minorLabel | a.minorLabel == a.minorLabel && a.minorLabel | 0 == a.minorLabel;
  }

  // ------------------------------------------------------------------ in-place forms

  /** An `Operation` object, for the members that change it in place. */
  class OperationVar {
    var opType: bv2
    var codeword: bv8

    constructor (v: Operation)
      ensures Value() == v
    {
      opType, codeword := v.opType, v.codeword;
    }

    function Value(): Operation
      reads this
    {
      Operation(opType, codeword)
    }

    /** `reset`: zeroes both fields, after which `is_nop` holds. */
    method Reset()
      modifies this
      ensures Value() == ZeroOperation && Value().IsNop()
    {
      opType, codeword := 0, 0;
    }
  }

  /** A `Micro_operation` object, for `|=` and `reset`. */
  class MicroOperationVar {
    var uOperation: Operation
    var condbits: bv2
    var majorLabel: bv6
    var minorLabel: bv4

    constructor (v: MicroOperation)
      ensures Value() == v
    {
      uOperation, condbits, majorLabel, minorLabel := v.uOperation, v.condbits, v.majorLabel, v.minorLabel;
    }

    function Value(): MicroOperation
      reads this
    {
      MicroOperation(uOperation, condbits, majorLabel, minorLabel)
    }

    /** `operator|=`: ORs `other` into every field and returns the updated value. */
    method OrAssign(other: MicroOperation) returns (r: MicroOperation)
      modifies this
      ensures Value() == old(Value()).Or(other) && r == Value()
    {
      uOperation := uOperation.Or(other.uOperation);
      condbits := condbits | other.condbits;
      majorLabel := majorLabel | other.majorLabel;
      minorLabel := minorLabel | other.minorLabel;
      r := Value();
    }

    /** `reset`: zeroes all four fields, after which `is_nop` holds. */
    method Reset()
      modifies this
      ensures Value() == ZeroMicroOperation && Value().IsNop()
    {
      uOperation := ZeroOperation;
      condbits, majorLabel, minorLabel := 0, 0, 0;
    }
  }

  /** A `Micro_operation_for_qubit` object, for `|=`. */
  class MicroOperationForQubitVar {
    var uOperation: Operation
    var condbits: bv2

    constructor (v: MicroOperationForQubit)
      ensures Value() == v
    {
      uOperation, condbits := v.uOperation, v.condbits;
    }

    function Value(): MicroOperationForQubit
      reads this
    {
      MicroOperationForQubit(uOperation, condbits)
    }

    /** `operator|=`: ORs the operation and the condition bits. */
    method OrAssign(other: MicroOperationForQubit) returns (r: MicroOperationForQubit)
      modifies this
      ensures Value() == MicroOperationForQubit(old(uOperation).Or(other.uOperation), old(condbits) | other.condbits)
      ensures r == Value()
    {
      uOperation := uOperation.Or(other.uOperation);
      condbits := condbits | other.condbits;
      r := Value();
    }
  }

  // ------------------------------------------------------------------ mux selector

  /** `Op_sel`: 0b00 no operation, 0b01 left, 0b10 right, 0b11 single-qubit (left). */
  datatype OpSel = OpSel(val: bv2)

  /** `to_string(Op_sel)`. */
  function OpSelName(s: OpSel): (r: string)
    ensures |r| >= 7 && r[..6] == "[mux: " && r[|r| - 1] == ']'
  {
    "[mux: " + (match s.val
      case 0 => "nop"
      case 1 => "left"
      case 2 => "right"
      case 3 => "single") + "]"
  }

  /** Different selector values print differently, and each prints its own word. */
  lemma OpSelNameInjective(a: OpSel, b: OpSel)
    ensures OpSelName(a) == OpSelName(b) <==> a == b
    ensures OpSelName(OpSel(0)) == "[mux: nop]" && OpSelName(OpSel(3)) == "[mux: single]"
  {
  }
}
