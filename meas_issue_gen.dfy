/** The measurement-issue generator of src/1_digital/quantum/tech_ind/meas_issue_gen.cpp:
  * every cycle it tells the measurement register file, operation by operation, which
  * operations of the incoming interface are measurements. It keeps no state. */
module MeasIssueGen {
  import opened Wrappers
  import opened GenericIf
  import Text

  /** The binary opcode of a measurement. */
  const MeasOpcode := 6

  /** The evidently intended test `opcode == 6`: the value of the opcode is 6. */
  predicate IsMeasOpcode(opcode: SimUint)
  {
    opcode.value == MeasOpcode
  }

  /** The test as written: the literal 6 is turned into a `Sim_uint` by the implicit
    * width constructor, and `Sim_uint` equality compares value and width. */
  predicate IsMeasOpcodeAsWritten(opcode: SimUint)
  {
    SimUintEq(opcode, SimUintOfWidth(MeasOpcode))
  }

  /** A named operation is a measurement when its name contains `Meas` or `meas`. */
  predicate IsMeasName(name: string)
  {
    Text.Contains(name, "Meas") || Text.Contains(name, "meas")
  }

  /** The flag of one operation: opcode operations by their opcode, named operations by
    * their name, empty slots never; any other representation aborts the simulation. */
  function MeasFlag(op: BareQop): Result<bool, string>
  {
    match op.repr
    case ReprOpcode => Success(IsMeasOpcode(op.opcode))
    case ReprName => Success(IsMeasName(op.name))
    case ReprUndef => Success(false)
    case _ => Failure("bad representation")
  }

  /** The same flag with the opcode test as written. */
  function MeasFlagAsWritten(op: BareQop): Result<bool, string>
  {
    match op.repr
    case ReprOpcode => Success(IsMeasOpcodeAsWritten(op.opcode))
    case ReprName => Success(IsMeasName(op.name))
    case ReprUndef => Success(false)
    case _ => Failure("bad representation")
  }

  /** The comparison as written holds only for the value 0 of width 6. Every opcode the
    * binary decoder produces is assigned into a 64-bit `Sim_uint`, so a binary
    * measurement never raises its enable, while the intended test does. */
  lemma OpcodeTestAsWritten(opcode: SimUint, v: int)
    ensures IsMeasOpcodeAsWritten(opcode) <==> opcode.value == 0 && opcode.width == 6
    ensures !IsMeasOpcodeAsWritten(AssignUint(DefaultSimUint, v))
    ensures IsMeasOpcode(AssignUint(DefaultSimUint, v)) <==> v % Uint32Modulus == MeasOpcode
  {
  }

  /** The binary measurement `opcode 6` is missed as written and flagged as intended;
    * the two flags agree on every operation that is not an opcode operation. */
  lemma MeasFlagFinding(op: BareQop)
    ensures op.repr == ReprOpcode && op.opcode == AssignUint(DefaultSimUint, MeasOpcode) ==>
      MeasFlagAsWritten(op) == Success(false) && MeasFlag(op) == Success(true)
    ensures op.repr != ReprOpcode ==> MeasFlagAsWritten(op) == MeasFlag(op)
  {
  }

  /** Which operations are accepted, and what the flag as written of an accepted one
    * means: a named measurement, or an opcode of value 0 and width 6. */
  lemma MeasFlagAsWrittenMeaning(op: BareQop)
    ensures MeasFlagAsWritten(op).Success? <==> MeasFlag(op).Success?
    ensures MeasFlagAsWritten(op) == Success(true) <==>
      (op.repr == ReprOpcode && op.opcode.value == 0 && op.opcode.width == 6) ||
      (op.repr == ReprName &&
       ((exists k :: Text.OccursAt(op.name, "Meas", k)) || (exists k :: Text.OccursAt(op.name, "meas", k))))
  {
    Text.ContainsAt(op.name, "Meas");
    Text.ContainsAt(op.name, "meas");
    OpcodeTestAsWritten(op.opcode, 0);
  }

  /** Which operations are accepted, and what the intended flag of an accepted one means. */
  lemma MeasFlagMeaning(op: BareQop)
    ensures MeasFlag(op).Success? <==> op.repr == ReprUndef || op.repr == ReprName || op.repr == ReprOpcode
    ensures MeasFlag(op) == Success(true) <==>
      (op.repr == ReprOpcode && op.opcode.value == 6) ||
      (op.repr == ReprName &&
       ((exists k :: Text.OccursAt(op.name, "Meas", k)) || (exists k :: Text.OccursAt(op.name, "meas", k))))
  {
    Text.ContainsAt(op.name, "Meas");
    Text.ContainsAt(op.name, "meas");
  }

  // ------------------------------------------------------------------ one cycle

  /** The enable vector built from `acc` onwards, operation `k` first, or the abort. */
  function EnablesFrom(ops: seq<FledgedQop>, acc: seq<bool>, k: nat): Result<seq<bool>, string>
    decreases |ops| - k
  {
    if k >= |ops| then Success(acc)
    else match MeasFlagAsWritten(ops[k].op)
      case Success(b) => EnablesFrom(ops, acc + [b], k + 1)
      case Failure(e) => Failure(e)
  }

  /** The enable vector of a run of operations. */
  function Enables(ops: seq<FledgedQop>): Result<seq<bool>, string>
  {
    EnablesFrom(ops, [], 0)
  }

  predicate Supported(ops: seq<FledgedQop>, k: nat)
  {
    forall j :: k <= j < |ops| ==> MeasFlagAsWritten(ops[j].op).Success?
  }

  /** Building from `k` succeeds iff every later operation is supported, and then
    * appends one flag per later operation, in order. */
  lemma {:induction false} EnablesFromMeaning(ops: seq<FledgedQop>, acc: seq<bool>, k: nat)
    requires k <= |ops|
    ensures EnablesFrom(ops, acc, k).Success? <==> Supported(ops, k)
    ensures EnablesFrom(ops, acc, k).Success? ==>
      var r := EnablesFrom(ops, acc, k).value;
      |r| == |acc| + |ops| - k && r[..|acc|] == acc &&
      forall j :: k <= j < |ops| ==> r[|acc| + j - k] == MeasFlagAsWritten(ops[j].op).value
    decreases |ops| - k
  {
    if k < |ops| {
      match MeasFlagAsWritten(ops[k].op)
      case Success(b) =>
        EnablesFromMeaning(ops, acc + [b], k + 1);
        if EnablesFrom(ops, acc, k).Success? {
          var r := EnablesFrom(ops, acc, k).value;
          assert r[..|acc| + 1][..|acc|] == acc;
        }
      case Failure(_) =>
    }
  }

  /** One enable per operation, its flag as written; an unsupported representation
    * anywhere aborts. */
  lemma EnablesMeaning(ops: seq<FledgedQop>)
    ensures Enables(ops).Success? <==> Supported(ops, 0)
    ensures Enables(ops).Success? ==>
      |Enables(ops).value| == |ops| &&
      forall j :: 0 <= j < |ops| ==> Enables(ops).value[j] == MeasFlagAsWritten(ops[j].op).value
  {
    EnablesFromMeaning(ops, [], 0);
  }

  /** The measurement record of one cycle: on reset `numQubits` false enables; otherwise
    * the enables of the interface's operations, with its timing when it has any. */
  function MeasIssue(reset: bool, numQubits: nat, i: QPipeInterface): Result<GenericMeas, string>
  {
    if reset then Success(EmptyMeas.(measEna := seq(numQubits, _ => false)))
    else match Enables(i.ops)
      case Success(ena) => Success(EmptyMeas.(timing := if i.ops == [] then DefaultTiming else i.timing, measEna := ena))
      case Failure(e) => Failure(e)
  }

  /** `do_output`, one clock: the record is cleared, then filled operation by operation. */
  method DoOutput(reset: bool, numQubits: nat, i: QPipeInterface) returns (r: Result<GenericMeas, string>)
    ensures r == MeasIssue(reset, numQubits, i)
  {
    var meas := EmptyMeas;
    var ena: seq<bool> := [];
    if reset {
      var q := 0;
      while q < numQubits
        invariant 0 <= q <= numQubits && ena == seq(q, _ => false)
      {
        ena := ena + [false];
        q := q + 1;
      }
      return Success(meas.(measEna := ena));
    }
    var k := 0;
    while k < |i.ops|
      invariant 0 <= k <= |i.ops|
      invariant EnablesFrom(i.ops, ena, k) == Enables(i.ops)
      invariant meas == if k == 0 then EmptyMeas else EmptyMeas.(timing := i.timing)
    {
      meas := meas.(timing := i.timing);
      var op := i.ops[k].op;
      if op.repr == ReprOpcode {
        ena := ena + [SimUintEq(op.opcode, SimUintOfWidth(MeasOpcode))];
      } else if op.repr == ReprName {
        ena := ena + [Text.Contains(op.name, "Meas") || Text.Contains(op.name, "meas")];
      } else if op.repr == ReprUndef {
        ena := ena + [false];
      } else {
        return Failure("bad representation");
      }
      k := k + 1;
    }
    r := Success(meas.(measEna := ena));
  }

  /** A cycle that is not reset reports exactly one enable per operation, and an enable
    * is raised exactly for the operations the test as written flags; a reset reports
    * `numQubits` lowered ones. */
  lemma MeasIssueShape(reset: bool, numQubits: nat, i: QPipeInterface)
    ensures reset ==> (MeasIssue(reset, numQubits, i).Success? &&
      |MeasIssue(reset, numQubits, i).value.measEna| == numQubits &&
      forall q :: 0 <= q < numQubits ==> !MeasIssue(reset, numQubits, i).value.measEna[q])
    ensures !reset ==> (MeasIssue(reset, numQubits, i).Success? <==> Supported(i.ops, 0))
    ensures !reset && MeasIssue(reset, numQubits, i).Success? ==>
      var m := MeasIssue(reset, numQubits, i).value;
      |m.measEna| == |i.ops| && (forall j :: 0 <= j < |i.ops| ==> m.measEna[j] == MeasFlagAsWritten(i.ops[j].op).value) &&
      m.measEnaCancel == [] && m.measData == [] && m.measDataValid == []
  {
    EnablesMeaning(i.ops);
  }
}
